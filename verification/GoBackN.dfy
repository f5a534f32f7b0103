/** The same system with unbounded sequence numbers: packets are known by their index, and every
    comparison is exact. Nothing here depends on five bits or on memory behind the window. */
module GoBackN {
  import opened Protocol
  import opened RouterSpec
  import opened SenderSpec
  import opened Flow
  import Link

  /** `base`: index of the first packet in the window. `high`: the largest count any reply taken so
      far has shown. `marks`: packets tagged since the last timeout. `slot0`: index of the packet in
      slot 0 of the buffer. `expected`: index the receiver waits for; 0 until it has been
      synchronised. `missed`: it was synchronised by a probe, past a packet it never got. */
  datatype Net = Net(
    size: nat, stamped: seq<Payload>, base: nat, high: nat, marks: set<nat>, slot0: nat,
    phase: Phase, waitForAck: bool, retry: nat, expected: nat, missed: bool, router: Router<Msg>,
    toRouter: seq<Msg>, toReceiver: seq<Msg>, back: seq<Msg>, toSender: seq<Msg>)
  {
    function Top(): nat {
      |stamped|
    }

    function Count(): int {
      Top() - base
    }

    /** Index of the packet in slot `k`. */
    function At(k: nat): nat {
      if Count() <= 0 then slot0 else base + k
    }

    function Last(): nat {
      if Count() <= 0 then 0 else Count() - 1
    }

    function Copy(k: nat): Msg {
      Msg(Request, At(k), Top())
    }

    function Copies(k: nat): seq<Msg> {
      seq(k, i requires 0 <= i < k => Copy(i))
    }

    function Burst(): seq<Msg> {
      Copies(Last()) + [Copy(Last())]
    }

    function Resend(): seq<Msg> {
      Copies(Last()) + [Copy(if Count() >= 2 then Count() - 2 else 0)]
    }

    /** What the receiver has passed on. */
    function Accepted(): seq<Payload>
      requires expected <= Top()
    {
      if missed then [] else stamped[..expected]
    }
  }

  function Max(a: nat, b: nat): nat {
    if a < b then b else a
  }

  /** The first index from `from` that is not marked, or `top`. */
  function Advance(from: nat, marks: set<nat>, top: nat): (b: nat)
    requires from <= top
    ensures from <= b <= top
    ensures forall i | from <= i < b :: i in marks
    ensures b < top ==> b !in marks
    decreases top - from
  {
    if from == top || from !in marks then from else Advance(from + 1, marks, top)
  }

  function MoveBase(g: Net, base: nat): Net {
    g.(base := base, slot0 := if base == g.base || base == g.Top() then g.slot0 else base)
  }

  function OnTimeOut(g: Net): Net
    requires g.retry > 0
  {
    var left := g.(marks := {}, retry := g.retry - 1, phase := if g.retry == 1 then Failed else Waiting);
    left.(toRouter := g.toRouter + g.Resend() + LastWords(g))
  }

  /** What follows the packets sent again: the probe after the last timeout, else the packet that
      udp_sendtoEx was called with unless an ACK has come in. */
  function LastWords(g: Net): seq<Msg> {
    if g.retry == 1 then [Msg(Sack, g.Top(), g.Top())]
    else if g.waitForAck then [] else [g.Copy(g.Last())]
  }

  function OnReply(g: Net, m: Msg): Net
    requires g.base <= g.Top()
  {
    var seen := g.(high := Max(g.high, m.num));
    var live := g.base < m.num <= g.Top();
    if m.kind != Ack then
      (if live then MoveBase(seen, m.num) else seen).(phase := Idle)
    else if g.Count() == 0 then seen.(phase := Failed)
    else
      var marks := if live then g.marks + {m.num - 1} else g.marks;
      var base := Advance(g.base, marks, g.Top());
      var moved := MoveBase(seen, base).(marks := marks);
      if base == g.Top() then moved.(phase := Idle) else moved.(waitForAck := true)
  }

  function OnDeliver(g: Net, m: Msg): Net {
    if m.kind == Request then
      if m.num == g.expected then
        g.(expected := g.expected + 1, back := g.back + [Msg(Ack, g.expected + 1, g.expected + 1)])
      else g.(back := g.back + [Msg(Nack, g.expected, g.expected)])
    else
      var now := if g.expected == 0 then m.num else g.expected;
      g.(expected := now, missed := g.missed || g.expected == 0, back := g.back + [Msg(Sack, now, now)])
  }

  function Next(g: Net, e: Link.Event): Net {
    match e
    case Give(data) =>
      if g.phase == Idle && g.Count() < g.size && (g.Top() == 1 ==> g.Count() == 0) then
        g.(stamped := g.stamped + [data], slot0 := if g.Count() == 0 then g.base else g.slot0)
      else g
    case Transmit =>
      if g.phase == Idle && g.stamped != [] then
        g.(marks := {}, phase := Waiting, waitForAck := false, retry := RETRY_LIMIT,
           toRouter := g.toRouter + g.Burst())
      else g
    case TimeOut => if g.phase == Waiting && g.retry > 0 then OnTimeOut(g) else g
    case TakeReply =>
      if g.phase == Waiting && g.toSender != [] && g.base <= g.Top() then
        OnReply(g, g.toSender[0]).(toSender := g.toSender[1..])
      else g
    case RouteData(delayed, damaged) =>
      if g.toRouter == [] then g
      else
        var (r, out) := OnPacket(g.router, Peer2, g.toRouter[0], delayed, damaged);
        g.(router := r, toRouter := g.toRouter[1..], toReceiver := g.toReceiver + out)
    case RouteReply(delayed, damaged) =>
      if g.back == [] then g
      else
        var (r, out) := OnPacket(g.router, Peer1, g.back[0], delayed, damaged);
        g.(router := r, back := g.back[1..], toSender := g.toSender + out)
    case RouteQuiet =>
      var (r, out) := OnQuiet(g.router);
      g.(router := r, toReceiver := g.toReceiver + out.peer2, toSender := g.toSender + out.peer1)
    case Deliver =>
      if g.toReceiver == [] then g
      else OnDeliver(g, g.toReceiver[0]).(toReceiver := g.toReceiver[1..])
    case LoseData => if g.toReceiver == [] then g else g.(toReceiver := g.toReceiver[1..])
    case LoseReply => if g.toSender == [] then g else g.(toSender := g.toSender[1..])
  }

  function Init(size: nat): Net {
    Net(size, [], 0, 0, {}, 0, Idle, false, 0, 0, false, New(), [], [], [], [])
  }

  function Run(g: Net, events: seq<Link.Event>): Net {
    if events == [] then g
    else Next(Run(g, events[..|events| - 1]), events[|events| - 1])
  }

  // ----- the invariant -----

  ghost predicate DataOk(g: Net, m: Msg) {
    && m.rank <= g.Top()
    && (m.kind == Request ==> m.num < m.rank <= m.num + g.size)
    && (m.kind != Request ==> m.kind == Sack && m.num == m.rank == g.Top() && g.phase == Failed)
  }

  ghost predicate ReplyOk(g: Net, m: Msg) {
    m.num == m.rank <= g.expected && m.kind in {Ack, Nack, Sack} && (m.kind == Ack ==> m.num > 0)
  }

  ghost predicate DataInv(g: Net) {
    var rest := HeldFor(g.router, Peer2) + g.toRouter;
    && Flows(g.toReceiver, rest, g.expected, 1)
    && forall m | m in g.toReceiver || m in rest :: DataOk(g, m)
  }

  ghost predicate ReplyInv(g: Net) {
    var rest := HeldFor(g.router, Peer1) + g.back;
    && Flows(g.toSender, rest, g.high, g.size)
    && forall m | m in g.toSender || m in rest :: ReplyOk(g, m)
  }

  /** Everything before `base` was accepted; the window reaches from there to the last stamped packet
      and is no larger than allowed; a tag or a reply never runs ahead of the receiver. */
  ghost predicate CoreInv(g: Net) {
    && 1 <= g.size && g.base <= g.high <= g.expected <= g.Top() <= g.base + g.size
    && (forall i | i in g.marks :: i < g.high)
    && (g.Top() > 0 ==> g.slot0 < g.Top() <= g.slot0 + g.size)
    && (g.Count() > 0 ==> g.slot0 == g.base)
    && (g.Top() == 0 ==> g.phase == Idle)
    && (g.phase == Waiting ==> g.retry > 0)
    && (g.expected == 0 ==> g.Top() <= 1)
    && (g.missed ==> g.phase == Failed && g.Top() == 1 && g.base == 0 && g.expected == 1)
  }

  ghost predicate Inv(g: Net) {
    CoreInv(g) && DataInv(g) && ReplyInv(g)
  }

  lemma InitInv(size: nat)
    requires 1 <= size
    ensures Inv(Init(size))
  {
  }

  /** The data direction after a step that only sends `more` on it. */
  lemma DataSent(g: Net, g': Net, more: seq<Msg>)
    requires CoreInv(g) && DataInv(g)
    requires g'.router == g.router && g'.toReceiver == g.toReceiver && g'.toRouter == g.toRouter + more
    requires g'.expected == g.expected && g'.size == g.size && g'.stamped == g.stamped
    requires g.phase == Failed ==> g'.phase == Failed
    requires forall m | m in more :: m.rank == g.Top() && DataOk(g', m)
    ensures DataInv(g')
  {
    var rest := HeldFor(g.router, Peer2) + g.toRouter;
    SendKeeps(g.toReceiver, rest, g.expected, 1, more, g.Top());
    assert HeldFor(g.router, Peer2) + (g.toRouter + more) == rest + more;
  }

  /** The reply direction after the receiver, now waiting for `g'.expected`, has sent `m`. */
  lemma ReplySent(g: Net, g': Net, m: Msg)
    requires CoreInv(g) && ReplyInv(g)
    requires g'.router == g.router && g'.toSender == g.toSender && g'.back == g.back + [m]
    requires g'.high == g.high && g'.size == g.size && g.expected <= g'.expected
    requires m.rank == g'.expected && ReplyOk(g', m)
    ensures ReplyInv(g')
  {
    var rest := HeldFor(g.router, Peer1) + g.back;
    SendKeeps(g.toSender, rest, g.high, g.size, [m], g'.expected);
    assert HeldFor(g.router, Peer1) + (g.back + [m]) == rest + [m];
  }

  lemma GiveKeeps(g: Net, data: Payload)
    requires Inv(g)
    ensures Inv(Next(g, Link.Give(data)))
  {
  }

  lemma CopiesOk(g: Net, k: nat)
    requires CoreInv(g) && g.Top() > 0 && k <= g.Last()
    ensures forall m | m in g.Copies(k) :: m.rank == g.Top() && DataOk(g, m)
    ensures DataOk(g, g.Copy(k))
  {
  }

  lemma TransmitKeeps(g: Net)
    requires Inv(g)
    ensures Inv(Next(g, Link.Transmit))
  {
    var g' := Next(g, Link.Transmit);
    if g' != g {
      CopiesOk(g, g.Last());
      DataSent(g, g', g.Burst());
    }
  }

  lemma TimeOutKeeps(g: Net)
    requires Inv(g)
    ensures Inv(Next(g, Link.TimeOut))
  {
    hide Flows;
    var g' := Next(g, Link.TimeOut);
    if g' != g {
      CopiesOk(g, g.Last());
      CopiesOk(g, if g.Count() >= 2 then g.Count() - 2 else 0);
      var more := LastWords(g);
      assert g'.toRouter == g.toRouter + (g.Resend() + more);
      DataSent(g, g', g.Resend() + more);
    }
  }

  lemma OnReplyCore(g: Net, m: Msg)
    requires CoreInv(g) && ReplyOk(g, m) && g.phase == Waiting
    ensures var g' := OnReply(g, m);
            && CoreInv(g') && g'.high == Max(g.high, m.num)
            && g' == g.(base := g'.base, slot0 := g'.slot0, high := g'.high, marks := g'.marks,
                        phase := g'.phase, waitForAck := g'.waitForAck)
  {
    var g' := OnReply(g, m);
    assert m.kind == Ack && g.base < g'.base ==> g'.base - 1 in g'.marks;
  }

  lemma TakeReplyKeeps(g: Net)
    requires Inv(g)
    ensures Inv(Next(g, Link.TakeReply))
  {
    hide OnReply, Flows;
    var g' := Next(g, Link.TakeReply);
    if g' != g {
      var rest := HeldFor(g.router, Peer1) + g.back;
      assert g.toSender[0] in g.toSender && forall m | m in g'.toSender :: m in g.toSender;
      OnReplyCore(g, g.toSender[0]);
      TakeKeeps(g.toSender, rest, g.high, g.size, g'.high);
    }
  }

  lemma OnDeliverCore(g: Net, m: Msg)
    requires CoreInv(g) && DataOk(g, m)
    ensures var g' := OnDeliver(g, m);
            && CoreInv(g') && g.expected <= g'.expected <= g.expected + 1
            && (g'.expected == g.expected || g'.expected <= m.rank)
            && |g'.back| == |g.back| + 1 && g'.back == g.back + [g'.back[|g.back|]]
            && g'.back[|g.back|].rank == g'.expected && ReplyOk(g', g'.back[|g.back|])
            && g' == g.(expected := g'.expected, missed := g'.missed, back := g'.back)
  {
  }

  lemma DeliverKeeps(g: Net)
    requires Inv(g)
    ensures Inv(Next(g, Link.Deliver))
  {
    hide OnDeliver, Flows;
    var g' := Next(g, Link.Deliver);
    if g' != g {
      var m, rest := g.toReceiver[0], HeldFor(g.router, Peer2) + g.toRouter;
      assert m in g.toReceiver && forall k | k in g'.toReceiver :: k in g.toReceiver;
      OnDeliverCore(g, m);
      TakeKeeps(g.toReceiver, rest, g.expected, 1, g'.expected);
      ReplySent(g, g', g'.back[|g.back|]);
    }
  }

  lemma RouteDataKeeps(g: Net, delayed: bool, damaged: bool)
    requires Inv(g)
    ensures Inv(Next(g, Link.RouteData(delayed, damaged)))
  {
    hide Flows;
    if g.toRouter != [] {
      OtherSlotKept(g.router, Peer2, g.toRouter[0], delayed, damaged, Peer1);
      PacketKeeps(g.toReceiver, g.router, g.toRouter, Peer2, delayed, damaged, g.expected, 1);
      PacketMembers(g.toReceiver, g.router, g.toRouter, Peer2, delayed, damaged);
    }
  }

  lemma RouteReplyKeeps(g: Net, delayed: bool, damaged: bool)
    requires Inv(g)
    ensures Inv(Next(g, Link.RouteReply(delayed, damaged)))
  {
    hide Flows;
    if g.back != [] {
      OtherSlotKept(g.router, Peer1, g.back[0], delayed, damaged, Peer2);
      PacketKeeps(g.toSender, g.router, g.back, Peer1, delayed, damaged, g.high, g.size);
      PacketMembers(g.toSender, g.router, g.back, Peer1, delayed, damaged);
    }
  }

  lemma RouteQuietKeeps(g: Net)
    requires Inv(g)
    ensures Inv(Next(g, Link.RouteQuiet))
  {
    hide Flows;
    QuietKeeps(g.toReceiver, g.router, g.toRouter, Peer2, g.expected, 1);
    QuietMembers(g.toReceiver, g.router, g.toRouter, Peer2);
    QuietKeeps(g.toSender, g.router, g.back, Peer1, g.high, g.size);
    QuietMembers(g.toSender, g.router, g.back, Peer1);
  }

  lemma LoseKeepsInv(g: Net, e: Link.Event)
    requires Inv(g) && e in {Link.LoseData, Link.LoseReply}
    ensures Inv(Next(g, e))
  {
    hide Flows;
    if e == Link.LoseData && g.toReceiver != [] {
      LoseKeeps(g.toReceiver, HeldFor(g.router, Peer2) + g.toRouter, g.expected, 1);
      assert forall m | m in g.toReceiver[1..] :: m in g.toReceiver;
    }
    if e == Link.LoseReply && g.toSender != [] {
      LoseKeeps(g.toSender, HeldFor(g.router, Peer1) + g.back, g.high, g.size);
      assert forall m | m in g.toSender[1..] :: m in g.toSender;
    }
  }

  /** Every step keeps the invariant, for a window of any size. */
  lemma NextKeeps(g: Net, e: Link.Event)
    requires Inv(g)
    ensures Inv(Next(g, e))
  {
    hide Inv;
    match e
    case Give(data) => GiveKeeps(g, data);
    case Transmit => TransmitKeeps(g);
    case TimeOut => TimeOutKeeps(g);
    case TakeReply => TakeReplyKeeps(g);
    case RouteData(delayed, damaged) => RouteDataKeeps(g, delayed, damaged);
    case RouteReply(delayed, damaged) => RouteReplyKeeps(g, delayed, damaged);
    case RouteQuiet => RouteQuietKeeps(g);
    case Deliver => DeliverKeeps(g);
    case LoseData => LoseKeepsInv(g, e);
    case LoseReply => LoseKeepsInv(g, e);
  }

  lemma {:induction false} RunKeeps(size: nat, events: seq<Link.Event>)
    requires 1 <= size
    ensures Inv(Run(Init(size), events))
  {
    hide Inv, Next;
    if events == [] {
      InitInv(size);
    } else {
      RunKeeps(size, events[..|events| - 1]);
      NextKeeps(Run(Init(size), events[..|events| - 1]), events[|events| - 1]);
    }
  }
}
