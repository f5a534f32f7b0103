/** The whole system for one direction of transfer: sender, router and receiver, joined by four legs
    that keep their order. Every step names the choice the environment makes in it. */
module Link {
  import opened Protocol
  import opened RouterSpec
  import opened SenderSpec

  /** `toRouter`, `toReceiver`: the legs of the data direction; `back`, `toSender`: those of the
      replies. `stamped` and `accepted` record the payloads that were given a header by the sender
      and those that the receiver passed on. */
  datatype State = State(
    tx: Sender, lastSeq: int, router: Router<Frame>,
    toRouter: seq<Frame>, toReceiver: seq<Frame>, back: seq<Frame>, toSender: seq<Frame>,
    stamped: seq<Payload>, accepted: seq<Payload>)
  {
    predicate Valid() {
      tx.Valid() && -1 <= lastSeq < SEQUENCE_NUM_MAX
    }
  }

  datatype Event =
    | Give(data: Payload)                           // the caller has a payload for the window
    | Transmit                                      // send_all_win_packets(0)
    | TimeOut                                       // the sender's lib_recvfrom returns 0
    | TakeReply                                     // the sender's lib_recvfrom returns a datagram
    | RouteData(delayed: bool, damaged: bool)       // the router receives from the sender
    | RouteReply(delayed: bool, damaged: bool)      // the router receives from the receiver
    | RouteQuiet                                    // the router's select times out
    | Deliver                                       // the receiver takes a datagram
    | LoseData                                      // a datagram is lost behind the router
    | LoseReply

  /** Before anything is stamped there is nothing to send; the first message of a transfer goes
      through sock_sendtoEx, which returns only when its one-packet window is empty. */
  predicate MayGive(s: State) {
    s.tx.phase == Idle && s.tx.view.count < s.tx.view.Size() && (|s.stamped| == 1 ==> s.tx.view.count == 0)
  }

  /** The step for an event; an event that is not possible changes nothing. */
  function Next(s: State, e: Event): (s': State)
    requires s.Valid()
    ensures s'.Valid() && s'.tx.view.Size() == s.tx.view.Size()
  {
    match e
    case Give(data) =>
      if MayGive(s) then s.(tx := Stamp(s.tx, data), stamped := s.stamped + [data]) else s
    case Transmit =>
      if s.tx.phase == Idle && s.stamped != [] then
        s.(tx := Begin(s.tx), toRouter := s.toRouter + Burst(s.tx.view))
      else s
    case TimeOut =>
      if s.tx.phase == Waiting then
        var (tx, frames) := OnArrival(s.tx, TimedOut);
        s.(tx := tx, toRouter := s.toRouter + frames)
      else s
    case TakeReply =>
      if s.tx.phase == Waiting && s.toSender != [] then
        var (tx, frames) := OnArrival(s.tx, Datagram(s.toSender[0]));
        s.(tx := tx, toSender := s.toSender[1..], toRouter := s.toRouter + frames)
      else s
    case RouteData(delayed, damaged) =>
      if s.toRouter == [] then s
      else
        var (r, out) := OnPacket(s.router, Peer2, s.toRouter[0], delayed, damaged);
        s.(router := r, toRouter := s.toRouter[1..], toReceiver := s.toReceiver + out)
    case RouteReply(delayed, damaged) =>
      if s.back == [] then s
      else
        var (r, out) := OnPacket(s.router, Peer1, s.back[0], delayed, damaged);
        s.(router := r, back := s.back[1..], toSender := s.toSender + out)
    case RouteQuiet =>
      var (r, out) := OnQuiet(s.router);
      s.(router := r, toReceiver := s.toReceiver + out.peer2, toSender := s.toSender + out.peer1)
    case Deliver =>
      if s.toReceiver == [] then s
      else
        var f := s.toReceiver[0];
        var v := Check(s.lastSeq, f);
        s.(lastSeq := v.lastSeq, toReceiver := s.toReceiver[1..], back := s.back + v.reply,
           accepted := if v.accepted then s.accepted + [f.data] else s.accepted)
    case LoseData => if s.toReceiver == [] then s else s.(toReceiver := s.toReceiver[1..])
    case LoseReply => if s.toSender == [] then s else s.(toSender := s.toSender[1..])
  }

  /** Everything at rest after a handshake: the sender's counter holds `first`, the receiver has
      been reset, and the window memory holds anything at all. */
  function Init(memory: seq<Frame>, first: nat): State
    requires 2 <= |memory| <= SEQUENCE_NUM_MAX + 1 && first < UINT_RANGE
  {
    State(Sender(Window(memory, 0, NoAcks()), first, -1, Idle, false, 0), -1, New(), [], [], [], [], [], [])
  }

  function Run(s: State, events: seq<Event>): (s': State)
    requires s.Valid()
    ensures s'.Valid() && s'.tx.view.Size() == s.tx.view.Size()
  {
    if events == [] then s
    else Next(Run(s, events[..|events| - 1]), events[|events| - 1])
  }

  lemma RunNone(s: State)
    requires s.Valid()
    ensures Run(s, []) == s
  {
  }

  /** The step takes the branch at line 506 of socklib.cpp on a window that is not empty: a NACK for
      no live packet meets, in the slot behind the live ones, the number before the one looked for. */
  predicate Forgets(s: State, e: Event)
    requires s.Valid()
  {
    && e == TakeReply && s.tx.phase == Waiting && s.toSender != []
    && s.toSender[0].ackType in {Nack, Sack}
    && var num := Low5(s.toSender[0].seqNum - 1);
       Find(s.tx.view.Live(), num) == s.tx.view.count > 0 && StaleHit(s.tx.view, num)
  }

  /** No step of the run takes that branch. */
  predicate Clean(s: State, events: seq<Event>)
    requires s.Valid()
  {
    events == [] ||
    (Clean(s, events[..|events| - 1]) && !Forgets(Run(s, events[..|events| - 1]), events[|events| - 1]))
  }

  /** How many of the stamped packets have left the window. */
  function Departed(s: State): int {
    |s.stamped| - s.tx.view.count
  }

  /** Some clean run leads from `s` to `t`. */
  ghost predicate Reaches(s: State, t: State)
    requires s.Valid()
  {
    exists events :: Clean(s, events) && Run(s, events) == t
  }

  lemma ReachesSelf(s: State)
    requires s.Valid()
    ensures Reaches(s, s)
  {
    assert Clean(s, []) && Run(s, []) == s;
  }

  lemma ReachesNext(s: State, t: State, e: Event)
    requires s.Valid() && t.Valid() && Reaches(s, t) && !Forgets(t, e)
    ensures Reaches(s, Next(t, e))
  {
    hide Next, Forgets;
    var events :| Clean(s, events) && Run(s, events) == t;
    assert (events + [e])[..|events|] == events;
    assert Clean(s, events + [e]) && Run(s, events + [e]) == Next(t, e);
  }
}
