/** udpsend and udprecv joined by a network that may lose, repeat and reorder: whatever was ever sent may
    come in at any time, any number of times. One transfer, with both counters starting at 0. */
module PairNet {
  import opened PairSpec

  /** `packets`, `answers`: all that was ever sent. `given`: the blocks udpsend was called with.
      `written`: the blocks udprecv has returned. */
  datatype State = State(
    tx: Sender, rx: Receiver, packets: set<Packet>, answers: set<Answer>, given: seq<Block>, written: seq<Block>)

  datatype Event =
    | Send(block: Block)
    | Quiet                       // a select of the sender times out
    | Answered(answer: Answer)    // the sender gets a reply
    | Arrives(packet: Packet)     // the receiver gets a packet
    | Breaks                      // a recvfrom of the receiver fails

  function Elements<T>(s: seq<T>): set<T> {
    set x | x in s
  }

  function Listen(s: State, d: Datagram): State {
    var (rx, more, result) := OnDatagram(s.rx, d);
    s.(rx := rx, answers := s.answers + Elements(more),
       written := if result.Returned? then s.written + [result.block] else s.written)
  }

  /** The step for an event; an event that is not possible changes nothing. */
  function Next(s: State, e: Event): State {
    match e
    case Send(block) =>
      if s.tx.stage == Idle then
        s.(tx := Call(s.tx, block), packets := s.packets + Elements(Pair(s.tx.next, block)), given := s.given + [block])
      else s
    case Quiet =>
      if s.tx.stage == Idle then s
      else
        var (tx, more) := OnArrival(s.tx, Silence);
        s.(tx := tx, packets := s.packets + Elements(more))
    case Answered(a) =>
      if s.tx.stage == Idle || a !in s.answers then s
      else
        var (tx, more) := OnArrival(s.tx, Heard(a));
        s.(tx := tx, packets := s.packets + Elements(more))
    case Arrives(p) => if p in s.packets then Listen(s, Got(p)) else s
    case Breaks => Listen(s, Broken)
  }

  function Init(block: Block): State {
    State(Sender(0, Idle, block, false, false, 0), Receiver(0, []), {}, {}, [], [])
  }

  function Run(s: State, events: seq<Event>): State {
    if events == [] then s
    else Next(Run(s, events[..|events| - 1]), events[|events| - 1])
  }

  // ----- the invariant -----

  /** How many calls of udpsend have returned. */
  function Finished(s: State): int {
    |s.given| - if s.tx.stage == Idle then 0 else 1
  }

  /** A packet is half of the block its number belongs to. */
  ghost predicate PacketOk(given: seq<Block>, p: Packet) {
    && 0 <= p.seqNo < 2 * |given|
    && p == Pair(p.seqNo - p.seqNo % 2, given[p.seqNo / 2])[p.seqNo % 2]
  }

  ghost predicate SenderOk(s: State) {
    && 0 <= Finished(s) && s.tx.next == 2 * Finished(s)
    && (s.tx.stage != Idle ==>
          && s.tx.block == s.given[Finished(s)]
          && (forall p | p in Pair(s.tx.next, s.tx.block) :: p in s.packets)
          && (s.tx.slide1 ==> |s.written| > Finished(s)) && (s.tx.slide2 ==> |s.written| > Finished(s)))
    && (s.tx.stage == First ==> !(s.tx.slide1 && s.tx.slide2))
    && (s.tx.stage in {Second, SecondRest} ==> s.tx.slide1)
  }

  ghost predicate ReceiverOk(s: State) {
    && s.rx.next == 2 * |s.written| && Finished(s) <= |s.written| && s.written <= s.given
    && |s.rx.first| <= 1 && (s.rx.first != [] && s.rx.first[0].Got? ==> s.rx.first[0].packet in s.packets)
  }

  ghost predicate Inv(s: State) {
    && SenderOk(s) && ReceiverOk(s)
    && (forall p | p in s.packets :: PacketOk(s.given, p))
    && (forall a | a in s.answers && a.ack :: 0 <= a.seqNo < 2 * |s.written|)
  }

  lemma SendKeeps(s: State, block: Block)
    requires Inv(s) && s.tx.stage == Idle
    ensures Inv(Next(s, Send(block)))
  {
    var given := s.given + [block];
    forall p | p in s.packets ensures PacketOk(given, p) {
      assert PacketOk(s.given, p) && given[p.seqNo / 2] == s.given[p.seqNo / 2];
    }
    var n := s.tx.next;
    assert n % 2 == 0 && (n + 1) % 2 == 1 && n / 2 == (n + 1) / 2 == |s.given|;
    forall p | p in Pair(n, block) ensures PacketOk(given, p) {
      assert p == Pair(n, block)[0] || p == Pair(n, block)[1];
    }
  }

  /** A wait of udpsend ends: only a positive answer for the current pair, which stands for an accepted
      pair, sets a flag; both flags are needed to leave the first loop. */
  lemma SenderKeeps(s: State, a: Arrival)
    requires Inv(s) && s.tx.stage != Idle && (a.Heard? ==> a.answer in s.answers)
    ensures var (tx, more) := OnArrival(s.tx, a);
            Inv(s.(tx := tx, packets := s.packets + Elements(more)))
  {
    hide PacketOk;
    var (tx, more) := OnArrival(s.tx, a);
    assert forall p | p in more :: p in Pair(s.tx.next, s.tx.block);
    assert s.packets + Elements(more) == s.packets;
  }

  /** Two packets with the numbers the receiver waits for are the halves of the next block. */
  lemma PairIsBlock(given: seq<Block>, k: nat, p: Packet, q: Packet)
    requires PacketOk(given, p) && PacketOk(given, q) && p.seqNo == 2 * k && q.seqNo == 2 * k + 1
    ensures k < |given| && p.data + q.data == given[k]
  {
    assert p.seqNo / 2 == q.seqNo / 2 == k && p.seqNo % 2 == 0 && q.seqNo % 2 == 1;
  }

  lemma ListenKeeps(s: State, d: Datagram)
    requires Inv(s) && (d.Got? ==> d.packet in s.packets)
    ensures Inv(Listen(s, d))
  {
    hide PacketOk;
    if s.rx.first != [] && s.rx.first[0].Got? && d.Got? {
      var p, q := s.rx.first[0].packet, d.packet;
      if p.seqNo == s.rx.next && q.seqNo == s.rx.next + 1 {
        PairIsBlock(s.given, |s.written|, p, q);
      } else if p.seqNo == s.rx.next - 2 && q.seqNo == s.rx.next - 1 {
        Numbers(s.given, p);
      }
    }
  }

  lemma Numbers(given: seq<Block>, p: Packet)
    requires PacketOk(given, p)
    ensures 0 <= p.seqNo < 2 * |given|
  {
  }

  lemma NextKeeps(s: State, e: Event)
    requires Inv(s)
    ensures Inv(Next(s, e))
  {
    hide Inv, OnArrival, Listen;
    match e
    case Send(block) =>
      if s.tx.stage == Idle {
        SendKeeps(s, block);
      }
    case Quiet =>
      if s.tx.stage != Idle {
        SenderKeeps(s, Silence);
      }
    case Answered(a) =>
      if s.tx.stage != Idle && a in s.answers {
        SenderKeeps(s, Heard(a));
      }
    case Arrives(p) =>
      if p in s.packets {
        ListenKeeps(s, Got(p));
      }
    case Breaks => ListenKeeps(s, Broken);
  }

  lemma {:induction false} RunKeeps(block: Block, events: seq<Event>)
    ensures Inv(Run(Init(block), events))
  {
    hide Next;
    if events != [] {
      RunKeeps(block, events[..|events| - 1]);
      hide Inv;
      NextKeeps(Run(Init(block), events[..|events| - 1]), events[|events| - 1]);
    }
  }

  // ----- the theorems -----

  /** SAFETY. In every run the blocks returned by udprecv are a prefix of those given to udpsend, and
      when no call of udpsend is under way they are all of them. */
  lemma WrittenIsPrefix(block: Block, events: seq<Event>)
    ensures var s := Run(Init(block), events);
            s.written <= s.given && (s.tx.stage == Idle ==> s.written == s.given)
  {
    hide PacketOk;
    RunKeeps(block, events);
  }

  /** LOCKSTEP. Both counters stay even, the receiver's is the sender's or two more, and it is two more
      as soon as udpsend has left its first loop, so that its advance by two makes them equal again. */
  lemma Lockstep(block: Block, events: seq<Event>)
    ensures var s := Run(Init(block), events);
            && s.tx.next % 2 == 0 && s.rx.next % 2 == 0 && s.tx.next <= s.rx.next <= s.tx.next + 2
            && (s.tx.stage == Idle ==> s.rx.next == s.tx.next)
            && (s.tx.stage in {Second, SecondRest} ==> s.rx.next == s.tx.next + 2)
  {
    hide Inv, Run, Init;
    RunKeeps(block, events);
    LockstepAt(Run(Init(block), events));
  }

  lemma LockstepAt(s: State)
    requires Inv(s)
    ensures s.tx.next == 2 * Finished(s) && s.rx.next == 2 * |s.written|
    ensures Finished(s) <= |s.written| <= Finished(s) + 1
    ensures s.tx.stage == Idle ==> |s.written| == Finished(s)
    ensures s.tx.stage in {Second, SecondRest} ==> |s.written| == Finished(s) + 1
  {
    hide PacketOk;
  }

  /** The resend limit is without effect: in every run, however often the packets were sent again, a
      timeout never ends the first loop of udpsend; only an answer does that makes both flags set. */
  lemma OnlyAnswersEndFirstLoop(block: Block, events: seq<Event>, e: Event)
    ensures var s := Run(Init(block), events);
            s.tx.stage in {First, FirstRest} && Next(s, e).tx.stage !in {First, FirstRest} ==>
              e.Answered? && s.tx.stage == FirstRest && Next(s, e).tx.slide1 && Next(s, e).tx.slide2
  {
    hide PacketOk;
    RunKeeps(block, events);
  }
}
