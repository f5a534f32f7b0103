/** The 5-bit protocol takes the same decisions as the one with unbounded numbers. */
module Refinement {
  import opened Protocol
  import opened RouterSpec
  import opened SenderSpec
  import opened Flow
  import opened GoBackN
  import Link

  /** The largest window for which five bits are enough on the side of the sender. */
  const SAFE_WINDOW := 15

  /** The frame of packet `index` when packet 0 got the number `first`. */
  function PacketFrame(first: nat, stamped: seq<Payload>, index: nat): Frame {
    Frame(Low5(first + index), Request, if index < |stamped| then stamped[index] else ZeroData())
  }

  /** The frame that stands for a message: an ACK carries the last number accepted, every other
      reply, like a probe, the number that comes next. */
  function Wire(first: nat, stamped: seq<Payload>, m: Msg): Frame {
    match m.kind
    case Request => PacketFrame(first, stamped, m.num)
    case Ack => Reply(first + m.num - 1, Ack)
    case _ => Reply(first + m.num, m.kind)
  }

  ghost predicate Wires(first: nat, stamped: seq<Payload>, ms: seq<Msg>, frames: seq<Frame>) {
    |ms| == |frames| && forall i | 0 <= i < |ms| :: frames[i] == Wire(first, stamped, ms[i])
  }

  ghost predicate Holds(first: nat, stamped: seq<Payload>, base: nat, slot0: nat, v: Window) {
    && v.Valid() && v.count == |stamped| - base
    && (forall k: nat | k < v.count :: v.slots[k] == PacketFrame(first, stamped, base + k))
    && (stamped != [] ==> v.slots[0] == PacketFrame(first, stamped, slot0))
  }

  ghost predicate WindowRel(first: nat, g: Net, v: Window) {
    Holds(first, g.stamped, g.base, g.slot0, v) && v.Size() == g.size
  }

  ghost predicate Tagged(base: nat, marks: set<nat>, v: Window)
    requires v.Valid()
  {
    forall k: nat | k < v.count :: v.acked[k] <==> base + k in marks
  }

  ghost predicate TagsRel(g: Net, v: Window)
    requires v.Valid()
  {
    Tagged(g.base, g.marks, v)
  }

  ghost predicate SenderRel(first: nat, g: Net, tx: Sender) {
    && tx.Valid() && WindowRel(first, g, tx.view)
    && tx.seqNo == (first + g.Top()) % UINT_RANGE && tx.lastSeq == -1 && tx.phase == g.phase
    && (g.phase == Waiting ==> tx.retry == g.retry && tx.waitForAck == g.waitForAck && TagsRel(g, tx.view))
  }

  ghost predicate RouterRel(first: nat, stamped: seq<Payload>, r: Router<Msg>, c: Router<Frame>) {
    && c.waitCount == r.waitCount
    && match r.slot
       case Empty => c.slot == Empty
       case Held(m, dest) => c.slot == Held(Wire(first, stamped, m), dest)
  }

  ghost predicate LegsRel(first: nat, g: Net, s: Link.State) {
    && Wires(first, g.stamped, g.toRouter, s.toRouter) && Wires(first, g.stamped, g.toReceiver, s.toReceiver)
    && Wires(first, g.stamped, g.back, s.back) && Wires(first, g.stamped, g.toSender, s.toSender)
    && RouterRel(first, g.stamped, g.router, s.router)
  }

  ghost predicate ReceiverRel(first: nat, g: Net, s: Link.State) {
    && g.expected <= g.Top()
    && s.lastSeq == (if g.expected == 0 then -1 else Low5(first + g.expected - 1))
    && s.accepted == g.Accepted()
  }

  /** The concrete state is the image of the unbounded one under taking numbers modulo 32. */
  ghost predicate Rel(first: nat, g: Net, s: Link.State) {
    s.stamped == g.stamped && SenderRel(first, g, s.tx) && LegsRel(first, g, s) && ReceiverRel(first, g, s)
  }

  // ----- five bits decide -----

  /** In a window of at most 32 packets the numbers are distinct, so a search finds the packet. */
  lemma FindLive(first: nat, g: Net, v: Window, k: nat)
    requires WindowRel(first, g, v) && k < v.count
    ensures Find(v.Live(), Low5(first + g.base + k)) == k
  {
    assert v.Live()[k].seqNum == Low5(first + g.base + k);
    forall j: nat | j < k ensures v.Live()[j].seqNum != Low5(first + g.base + k) {
      Low5Injective(first + g.base + j, first + g.base + k);
    }
  }

  /** Looking up the packet a reply stands for finds it exactly when it is in the window: every reply
      on its way counts at least `high - size` packets and no more than were stamped. */
  lemma FindReply(first: nat, g: Net, v: Window, m: Msg)
    requires WindowRel(first, g, v) && CoreInv(g) && ReplyOk(g, m)
    requires g.size <= SAFE_WINDOW && g.high <= m.num + g.size
    ensures Find(v.Live(), Low5(first + m.num - 1)) == if g.base < m.num <= g.Top() then m.num - 1 - g.base else v.count
  {
    if g.base < m.num {
      FindLive(first, g, v, m.num - 1 - g.base);
    } else {
      forall j: nat | j < v.count ensures v.Live()[j].seqNum != Low5(first + m.num - 1) {
        Low5Injective(first + g.base + j, first + m.num - 1);
      }
    }
  }

  /** The receiver's comparison of numbers is one of indexes. */
  lemma CheckPacket(first: nat, g: Net, m: Msg)
    requires CoreInv(g) && DataOk(g, m) && m.kind == Request && g.expected > 0
    requires g.size < SEQUENCE_NUM_MAX - 1 && g.expected <= m.rank + 1
    ensures Low5(Low5(first + g.expected - 1) + 1) == Low5(first + m.num) <==> m.num == g.expected
  {
    Low5Sum(first + g.expected - 1, 1);
    Low5Injective(first + g.expected, first + m.num);
  }

  // ----- steps of the sender -----

  lemma ShiftHolds(first: nat, stamped: seq<Payload>, base: nat, slot0: nat, v: Window, i: nat)
    requires Holds(first, stamped, base, slot0, v) && 0 < i <= v.count
    ensures Holds(first, stamped, base + i, if i == v.count then slot0 else base + i, Shift(v, i))
  {
    var v' := Shift(v, i);
    forall k: nat | k < v'.count ensures v'.slots[k] == PacketFrame(first, stamped, base + i + k) {
      assert v'.slots[k] == v.slots[i + k];
    }
  }

  lemma ShiftTagged(base: nat, marks: set<nat>, v: Window, i: nat)
    requires v.Valid() && 0 < i < v.count && Tagged(base, marks, v)
    ensures Tagged(base + i, marks, Shift(v, i))
  {
    var v' := Shift(v, i);
    forall k: nat | k < v'.count ensures v'.acked[k] <==> base + i + k in marks {
      assert v'.acked[k] == v.acked[i + k];
    }
  }

  /** What leaves the window on the left leaves it on both sides. */
  lemma ShiftRel(first: nat, g: Net, v: Window, base: nat)
    requires WindowRel(first, g, v) && g.base < base <= g.Top()
    ensures WindowRel(first, MoveBase(g, base), Shift(v, base - g.base))
    ensures base < g.Top() && TagsRel(g, v) ==> TagsRel(MoveBase(g, base), Shift(v, base - g.base))
  {
    hide Shift, Holds, Tagged;
    SizeOf(first, g, v);
    ShiftHolds(first, g.stamped, g.base, g.slot0, v, base - g.base);
    if base < g.Top() && TagsRel(g, v) {
      ShiftTagged(g.base, g.marks, v, base - g.base);
    }
  }

  lemma RemoveRel(first: nat, g: Net, v: Window, m: Msg)
    requires WindowRel(first, g, v) && CoreInv(g) && ReplyOk(g, m)
    requires g.size <= SAFE_WINDOW && g.high <= m.num + g.size
    requires var num := Low5(first + m.num - 1);
             Find(v.Live(), num) == v.count > 0 ==> !StaleHit(v, num)
    ensures var g' := if g.base < m.num then MoveBase(g, m.num) else g;
            WindowRel(first, g', Remove(v, Low5(first + m.num - 1)))
  {
    hide Shift, Find, StaleHit, Holds, MoveBase;
    FindReply(first, g, v, m);
    if g.base < m.num {
      ShiftRel(first, g, v, m.num);
    } else if v.count == 0 {
      assert v.(count := 0) == v;
    }
    SizeOf(first, g, v);
  }

  lemma SizeOf(first: nat, g: Net, v: Window)
    requires WindowRel(first, g, v)
    ensures v.Valid() && v.Size() == g.size && v.count == g.Count()
  {
  }

  lemma NackRel(first: nat, g: Net, tx: Sender, m: Msg)
    requires SenderRel(first, g, tx) && CoreInv(g) && ReplyOk(g, m) && m.kind != Ack
    requires g.size <= SAFE_WINDOW && g.high <= m.num + g.size
    requires var num := Low5(Wire(first, g.stamped, m).seqNum - 1);
             Find(tx.view.Live(), num) == tx.view.count > 0 ==> !StaleHit(tx.view, num)
    ensures SenderRel(first, OnReply(g, m), OnNack(tx, Wire(first, g.stamped, m).seqNum))
  {
    hide Remove, Find, StaleHit, CoreInv, Holds;
    Low5Sum(first + m.num, -1);
    TopBound(g, m);
    RemoveRel(first, g, tx.view, m);
  }

  lemma TopBound(g: Net, m: Msg)
    requires CoreInv(g) && ReplyOk(g, m)
    ensures m.num <= g.Top() && g.base <= g.Top()
  {
  }

  /** Tagging the acknowledged packet and removing the leading run, on both sides. */
  lemma RunOutRel(first: nat, g: Net, v: Window)
    requires WindowRel(first, g, v) && TagsRel(g, v) && g.base <= g.Top()
    ensures var base, run := Advance(g.base, g.marks, g.Top()), AckRun(v);
            && run == base - g.base
            && (run > 0 ==> Remove(v, v.slots[run - 1].seqNum) == Shift(v, run))
            && (run > 0 ==> WindowRel(first, MoveBase(g, base), Shift(v, run)))
            && (run > 0 && base < g.Top() ==> TagsRel(MoveBase(g, base), Shift(v, run)))
  {
    hide Shift, Find, StaleHit, AckRun, Advance, MoveBase, Tagged;
    LeadingRel(first, g, v);
    var run := AckRun(v);
    if run > 0 {
      FindLive(first, g, v, run - 1);
      ShiftRel(first, g, v, g.base + run);
    }
  }

  lemma AckRel(first: nat, g: Net, tx: Sender, m: Msg)
    requires SenderRel(first, g, tx) && CoreInv(g) && ReplyOk(g, m) && m.kind == Ack && g.phase == Waiting
    requires g.size <= SAFE_WINDOW && g.high <= m.num + g.size
    ensures SenderRel(first, OnReply(g, m), OnAck(tx, Wire(first, g.stamped, m).seqNum))
  {
    hide Remove, Shift, Mark, AckRun, Advance, Holds, Tagged;
    TopBound(g, m);
    SizeOf(first, g, tx.view);
    if tx.view.count > 0 {
      var g1 := g.(marks := if g.base < m.num then g.marks + {m.num - 1} else g.marks);
      MarkRel(first, g, tx.view, m);
      RunOutRel(first, g1, Mark(tx.view, Low5(first + m.num - 1)));
    }
  }

  lemma MarkRel(first: nat, g: Net, v: Window, m: Msg)
    requires WindowRel(first, g, v) && TagsRel(g, v) && CoreInv(g) && ReplyOk(g, m)
    requires g.size <= SAFE_WINDOW && g.high <= m.num + g.size
    ensures var live := g.base < m.num;
            var g' := g.(marks := if live then g.marks + {m.num - 1} else g.marks);
            var v' := Mark(v, Low5(first + m.num - 1));
            WindowRel(first, g', v') && TagsRel(g', v')
  {
    FindReply(first, g, v, m);
  }

  /** The leading run of tags is the run of acknowledged packets from the base on. */
  lemma LeadingRel(first: nat, g: Net, v: Window)
    requires WindowRel(first, g, v) && TagsRel(g, v) && g.base <= g.Top()
    ensures AckRun(v) == Advance(g.base, g.marks, g.Top()) - g.base
  {
    var run, base := AckRun(v), Advance(g.base, g.marks, g.Top());
    var tags := v.acked[..v.count];
    assert forall k: nat | k < v.count :: tags[k] <==> g.base + k in g.marks;
    assert base < g.Top() ==> !tags[base - g.base];
    assert run < v.count ==> g.base + run !in g.marks;
  }

  // ----- steps of the system -----

  lemma InitRel(memory: seq<Frame>, first: nat)
    requires 2 <= |memory| <= SEQUENCE_NUM_MAX + 1 && first < UINT_RANGE
    ensures Rel(first, Init(|memory| - 1), Link.Init(memory, first))
  {
  }

  /** Stamping one more packet changes no frame that is on its way. */
  lemma WireStable(first: nat, stamped: seq<Payload>, data: Payload, m: Msg)
    requires m.kind == Request ==> m.num < |stamped|
    ensures Wire(first, stamped + [data], m) == Wire(first, stamped, m)
  {
  }

  lemma WiresStable(first: nat, stamped: seq<Payload>, data: Payload, ms: seq<Msg>, frames: seq<Frame>)
    requires Wires(first, stamped, ms, frames)
    requires forall m | m in ms :: m.kind == Request ==> m.num < |stamped|
    ensures Wires(first, stamped + [data], ms, frames)
  {
    forall i | 0 <= i < |ms| ensures frames[i] == Wire(first, stamped + [data], ms[i]) {
      WireStable(first, stamped, data, ms[i]);
    }
  }

  lemma LegsStable(first: nat, g: Net, s: Link.State, data: Payload)
    requires LegsRel(first, g, s) && DataInv(g) && ReplyInv(g)
    ensures LegsRel(first, g.(stamped := g.stamped + [data]), s)
  {
    hide Flows, Wires, Wire;
    assert forall m | m in g.toRouter || m in HeldFor(g.router, Peer2) :: m in HeldFor(g.router, Peer2) + g.toRouter;
    assert forall m | m in g.back || m in HeldFor(g.router, Peer1) :: m in HeldFor(g.router, Peer1) + g.back;
    WiresStable(first, g.stamped, data, g.toRouter, s.toRouter);
    WiresStable(first, g.stamped, data, g.toReceiver, s.toReceiver);
    WiresStable(first, g.stamped, data, g.back, s.back);
    WiresStable(first, g.stamped, data, g.toSender, s.toSender);
    if g.router.slot.Held? {
      var m := g.router.slot.msg;
      assert m in HeldFor(g.router, g.router.slot.dest);
      WireStable(first, g.stamped, data, m);
    }
  }

  lemma StampRel(first: nat, g: Net, tx: Sender, data: Payload)
    requires SenderRel(first, g, tx) && CoreInv(g) && g.phase == Idle && g.Count() < g.size
    requires g.Top() == 1 ==> g.Count() == 0
    ensures SenderRel(first, Next(g, Link.Give(data)), Stamp(tx, data))
  {
    hide Holds, Low5;
    SizeOf(first, g, tx.view);
    CounterUp(first + g.Top());
    Low5OfUint(first + g.Top());
    StampHolds(first, g.stamped, g.base, g.slot0, tx.view, data);
  }

  lemma CounterUp(n: nat)
    ensures (n + 1) % UINT_RANGE == (n % UINT_RANGE + 1) % UINT_RANGE
  {
  }

  lemma StampHolds(first: nat, stamped: seq<Payload>, base: nat, slot0: nat, v: Window, data: Payload)
    requires Holds(first, stamped, base, slot0, v) && v.count < v.Size() && base <= |stamped|
    requires v.count > 0 ==> slot0 == base
    ensures var f := Frame(Low5(first + |stamped|), Request, data);
            Holds(first, stamped + [data], base, if v.count == 0 then base else slot0,
                  v.(slots := v.slots[v.count := f], count := v.count + 1))
  {
    hide Low5;
  }

  lemma GiveRel(first: nat, g: Net, s: Link.State, data: Payload)
    requires Rel(first, g, s) && Inv(g)
    ensures Rel(first, Next(g, Link.Give(data)), Link.Next(s, Link.Give(data)))
  {
    hide Wires, Flows, Holds, Stamp;
    SizeOf(first, g, s.tx.view);
    if Link.MayGive(s) {
      StampRel(first, g, s.tx, data);
      LegsStable(first, g, s, data);
      assert (g.stamped + [data])[..g.expected] == g.stamped[..g.expected];
    }
  }

  /** The packets in the window are sent as the frames in the slots. */
  lemma SlotsWired(first: nat, g: Net, tx: Sender, k: nat)
    requires SenderRel(first, g, tx) && g.Top() > 0 && k <= LastSlot(tx.view)
    ensures LastSlot(tx.view) == g.Last()
    ensures Wires(first, g.stamped, g.Copies(k), tx.view.slots[..k])
    ensures tx.view.slots[k] == Wire(first, g.stamped, g.Copy(k))
  {
  }

  lemma WiresJoin(first: nat, stamped: seq<Payload>, ms: seq<Msg>, frames: seq<Frame>,
                  ms': seq<Msg>, frames': seq<Frame>)
    requires Wires(first, stamped, ms, frames) && Wires(first, stamped, ms', frames')
    ensures Wires(first, stamped, ms + ms', frames + frames')
  {
  }

  /** udp_sendtoEx and every timeout clear arrACK. */
  lemma Cleared(first: nat, stamped: seq<Payload>, base: nat, slot0: nat, v: Window)
    requires Holds(first, stamped, base, slot0, v)
    ensures Holds(first, stamped, base, slot0, v.(acked := NoAcks())) && Tagged(base, {}, v.(acked := NoAcks()))
  {
  }

  lemma TransmitRel(first: nat, g: Net, s: Link.State)
    requires Rel(first, g, s) && Inv(g)
    ensures Rel(first, Next(g, Link.Transmit), Link.Next(s, Link.Transmit))
  {
    hide Flows, Holds;
    if g.phase == Idle && g.stamped != [] {
      var k, v := g.Last(), s.tx.view;
      Cleared(first, g.stamped, g.base, g.slot0, v);
      SlotsWired(first, g, s.tx, LastSlot(v));
      WiresJoin(first, g.stamped, g.Copies(k), v.slots[..k], [g.Copy(k)], [v.slots[k]]);
      WiresJoin(first, g.stamped, g.toRouter, s.toRouter, g.Burst(), Burst(v));
    }
  }

  lemma ResendWired(first: nat, g: Net, tx: Sender)
    requires SenderRel(first, g, tx) && g.phase == Waiting && g.Top() > 0 && g.base <= g.Top()
    ensures Wires(first, g.stamped, g.Resend() + LastWords(g), OnArrival(tx, TimedOut).1)
  {
    hide Holds;
    var k, v := g.Last(), tx.view;
    var j := if g.Count() >= 2 then g.Count() - 2 else 0;
    SizeOf(first, g, v);
    SlotsWired(first, g, tx, LastSlot(v));
    SlotsWired(first, g, tx, j);
    WiresJoin(first, g.stamped, g.Copies(k), v.slots[..k], [g.Copy(j)], [v.slots[j]]);
    Low5OfUint(first + g.Top());
    var words := if g.retry == 1 then [Probe(tx)] else if tx.waitForAck then [] else [v.slots[k]];
    WiresJoin(first, g.stamped, g.Resend(), Resend(v), LastWords(g), words);
  }

  lemma TimeOutRel(first: nat, g: Net, s: Link.State)
    requires Rel(first, g, s) && Inv(g)
    ensures Rel(first, Next(g, Link.TimeOut), Link.Next(s, Link.TimeOut))
  {
    hide Flows, Holds, Wires, Resend, Net.Resend, LastWords;
    if g.phase == Waiting {
      Cleared(first, g.stamped, g.base, g.slot0, s.tx.view);
      ResendWired(first, g, s.tx);
      var frames := OnArrival(s.tx, TimedOut).1;
      WiresJoin(first, g.stamped, g.toRouter, s.toRouter, g.Resend() + LastWords(g), frames);
      assert g.toRouter + (g.Resend() + LastWords(g)) == g.toRouter + g.Resend() + LastWords(g);
    }
  }

  lemma TakeReplyRel(first: nat, g: Net, s: Link.State)
    requires Rel(first, g, s) && Inv(g) && g.size <= SAFE_WINDOW && !Link.Forgets(s, Link.TakeReply)
    ensures Rel(first, Next(g, Link.TakeReply), Link.Next(s, Link.TakeReply))
  {
    hide DataInv, ReplyInv, CoreInv, Holds, Find, StaleHit, Low5, OnAck, OnNack, OnReply;
    if g.phase == Waiting && g.toSender != [] {
      var m := g.toSender[0];
      NextReplyBound(g);
      TopBound(g, m);
      if m.kind == Ack {
        AckRel(first, g, s.tx, m);
      } else {
        NackRel(first, g, s.tx, m);
      }
      OnReplyCore(g, m);
    }
  }

  lemma NextReplyBound(g: Net)
    requires ReplyInv(g) && g.toSender != []
    ensures ReplyOk(g, g.toSender[0]) && g.high <= g.toSender[0].num + g.size
  {
    assert g.toSender[0] in g.toSender;
  }

  lemma PacketRel(first: nat, stamped: seq<Payload>, r: Router<Msg>, c: Router<Frame>, dest: Peer, m: Msg,
                  delayed: bool, damaged: bool)
    requires RouterRel(first, stamped, r, c)
    ensures var ((r', out), (c', out')) := (OnPacket(r, dest, m, delayed, damaged),
                                            OnPacket(c, dest, Wire(first, stamped, m), delayed, damaged));
            RouterRel(first, stamped, r', c') && Wires(first, stamped, out, out')
  {
    hide Wire;
  }

  lemma QuietRel(first: nat, stamped: seq<Payload>, r: Router<Msg>, c: Router<Frame>)
    requires RouterRel(first, stamped, r, c)
    ensures var ((r', out), (c', out')) := (OnQuiet(r), OnQuiet(c));
            && RouterRel(first, stamped, r', c')
            && Wires(first, stamped, out.peer1, out'.peer1) && Wires(first, stamped, out.peer2, out'.peer2)
  {
    hide Wire;
  }

  lemma WiresTail(first: nat, stamped: seq<Payload>, ms: seq<Msg>, frames: seq<Frame>)
    requires Wires(first, stamped, ms, frames) && ms != []
    ensures frames[0] == Wire(first, stamped, ms[0]) && Wires(first, stamped, ms[1..], frames[1..])
  {
  }

  lemma RouteRel(first: nat, g: Net, s: Link.State, e: Link.Event)
    requires Rel(first, g, s) && (e.RouteData? || e.RouteReply? || e.RouteQuiet?)
    ensures Rel(first, Next(g, e), Link.Next(s, e))
  {
    hide Wires, Wire, SenderRel, ReceiverRel, RouterRel, OnPacket, OnQuiet;
    SameLengths(first, g, s);
    match e {
      case RouteData(delayed, damaged) =>
        if g.toRouter != [] {
          WiresTail(first, g.stamped, g.toRouter, s.toRouter);
          PacketRel(first, g.stamped, g.router, s.router, Peer2, g.toRouter[0], delayed, damaged);
          WiresJoin(first, g.stamped, g.toReceiver, s.toReceiver,
                    OnPacket(g.router, Peer2, g.toRouter[0], delayed, damaged).1,
                    OnPacket(s.router, Peer2, s.toRouter[0], delayed, damaged).1);
        }
      case RouteReply(delayed, damaged) =>
        if g.back != [] {
          WiresTail(first, g.stamped, g.back, s.back);
          PacketRel(first, g.stamped, g.router, s.router, Peer1, g.back[0], delayed, damaged);
          WiresJoin(first, g.stamped, g.toSender, s.toSender,
                    OnPacket(g.router, Peer1, g.back[0], delayed, damaged).1,
                    OnPacket(s.router, Peer1, s.back[0], delayed, damaged).1);
        }
      case RouteQuiet =>
        QuietRel(first, g.stamped, g.router, s.router);
        WiresJoin(first, g.stamped, g.toReceiver, s.toReceiver, OnQuiet(g.router).1.peer2, OnQuiet(s.router).1.peer2);
        WiresJoin(first, g.stamped, g.toSender, s.toSender, OnQuiet(g.router).1.peer1, OnQuiet(s.router).1.peer1);
    }
    LegsOnly(first, g, Next(g, e), s, Link.Next(s, e));
  }

  lemma SameLengths(first: nat, g: Net, s: Link.State)
    requires Rel(first, g, s)
    ensures |g.toRouter| == |s.toRouter| && |g.toReceiver| == |s.toReceiver|
    ensures |g.back| == |s.back| && |g.toSender| == |s.toSender| && s.Valid()
  {
  }

  lemma LoseRel(first: nat, g: Net, s: Link.State, e: Link.Event)
    requires Rel(first, g, s) && (e.LoseData? || e.LoseReply?)
    ensures Rel(first, Next(g, e), Link.Next(s, e))
  {
    hide Wires, SenderRel, ReceiverRel, RouterRel;
    SameLengths(first, g, s);
    if e.LoseData? && g.toReceiver != [] {
      WiresTail(first, g.stamped, g.toReceiver, s.toReceiver);
    }
    if e.LoseReply? && g.toSender != [] {
      WiresTail(first, g.stamped, g.toSender, s.toSender);
    }
    LegsOnly(first, g, Next(g, e), s, Link.Next(s, e));
  }

  /** A step that changes nothing but what is under way. */
  lemma LegsOnly(first: nat, g: Net, g': Net, s: Link.State, s': Link.State)
    requires Rel(first, g, s) && LegsRel(first, g', s')
    requires g' == g.(router := g'.router, toRouter := g'.toRouter, toReceiver := g'.toReceiver,
                      back := g'.back, toSender := g'.toSender)
    requires s' == s.(router := s'.router, toRouter := s'.toRouter, toReceiver := s'.toReceiver,
                      back := s'.back, toSender := s'.toSender)
    ensures Rel(first, g', s')
  {
    hide Wires, Holds, Tagged, RouterRel;
  }

  /** What the receiver makes of a message and its frame. */
  lemma CheckRel(first: nat, g: Net, m: Msg, lastSeq: int)
    requires CoreInv(g) && DataOk(g, m) && g.size < SEQUENCE_NUM_MAX - 1 && g.expected <= m.rank + 1
    requires lastSeq == if g.expected == 0 then -1 else Low5(first + g.expected - 1)
    ensures var (g', f) := (OnDeliver(g, m), Wire(first, g.stamped, m));
            var v := Check(lastSeq, f);
            && (v.accepted <==> m.kind == Request && m.num == g.expected)
            && (v.accepted ==>
                  f.data == g.stamped[g.expected] && !g'.missed && !g.missed && g'.expected == g.expected + 1)
            && (!v.accepted ==> g'.Accepted() == g.Accepted())
            && g'.expected > 0 && v.lastSeq == Low5(first + g'.expected - 1)
            && g'.back == g.back + [g'.back[|g.back|]]
            && v.reply == [Wire(first, g.stamped, g'.back[|g.back|])]
  {
    hide Low5;
    if m.kind == Request && g.expected > 0 {
      CheckPacket(first, g, m);
    }
    Low5Sum(first + g.expected - 1, 1);
    Low5Sum(first + m.num, -1);
    Low5Sum(first + m.num - 1, 1);
  }

  lemma DeliverRel(first: nat, g: Net, s: Link.State)
    requires Rel(first, g, s) && Inv(g) && g.size < SEQUENCE_NUM_MAX - 1
    ensures Rel(first, Next(g, Link.Deliver), Link.Next(s, Link.Deliver))
  {
    hide Wires, Wire, Holds, Tagged, RouterRel, CoreInv, DataInv, ReplyInv, OnDeliver, Check, Low5;
    SameLengths(first, g, s);
    if g.toReceiver != [] {
      var m := g.toReceiver[0];
      NextPacketBound(g);
      WiresTail(first, g.stamped, g.toReceiver, s.toReceiver);
      CheckRel(first, g, m, s.lastSeq);
      OnDeliverCore(g, m);
      var reply := OnDeliver(g, m).back[|g.back|];
      WireOne(first, g.stamped, reply);
      WiresJoin(first, g.stamped, g.back, s.back, [reply], [Wire(first, g.stamped, reply)]);
      DeliverFrame(first, g, OnDeliver(g, m), s.tx);
      assert g.expected < g.Top() ==> g.stamped[..g.expected + 1] == g.stamped[..g.expected] + [g.stamped[g.expected]];
    }
  }

  lemma NextPacketBound(g: Net)
    requires DataInv(g) && g.toReceiver != []
    ensures DataOk(g, g.toReceiver[0]) && g.expected <= g.toReceiver[0].rank + 1
  {
    assert g.toReceiver[0] in g.toReceiver;
  }

  lemma WireOne(first: nat, stamped: seq<Payload>, m: Msg)
    ensures Wires(first, stamped, [m], [Wire(first, stamped, m)])
  {
  }

  lemma DeliverFrame(first: nat, g: Net, g': Net, tx: Sender)
    requires SenderRel(first, g, tx) && CoreInv(g')
    requires g' == g.(expected := g'.expected, missed := g'.missed, back := g'.back)
    ensures SenderRel(first, g', tx) && g'.expected <= g'.Top()
  {
  }

  lemma NextRel(first: nat, g: Net, s: Link.State, e: Link.Event)
    requires Rel(first, g, s) && Inv(g) && g.size <= SAFE_WINDOW && !Link.Forgets(s, e)
    ensures Rel(first, Next(g, e), Link.Next(s, e))
  {
    hide Rel, Inv, Next, Link.Next;
    match e
    case Give(data) => GiveRel(first, g, s, data);
    case Transmit => TransmitRel(first, g, s);
    case TimeOut => TimeOutRel(first, g, s);
    case TakeReply => TakeReplyRel(first, g, s);
    case Deliver => DeliverRel(first, g, s);
    case LoseData => LoseRel(first, g, s, e);
    case LoseReply => LoseRel(first, g, s, e);
    case _ => RouteRel(first, g, s, e);
  }

  /** REFINEMENT. With a window of at most 15, in every clean run, whatever is lost, delayed,
      reordered or sent again, the program with 5-bit numbers is at each moment the image of the
      protocol with unbounded numbers that meets the same events. */
  lemma {:induction false} RunRel(memory: seq<Frame>, first: nat, events: seq<Link.Event>)
    requires 2 <= |memory| <= SAFE_WINDOW + 1 && first < UINT_RANGE
    requires Link.Clean(Link.Init(memory, first), events)
    ensures var g := GoBackN.Run(Init(|memory| - 1), events);
            Inv(g) && g.size == |memory| - 1 && Rel(first, g, Link.Run(Link.Init(memory, first), events))
  {
    hide Rel, Inv, Next, Link.Next;
    GoBackN.RunKeeps(|memory| - 1, events);
    if events == [] {
      InitRel(memory, first);
    } else {
      var before := events[..|events| - 1];
      RunRel(memory, first, before);
      var g := GoBackN.Run(Init(|memory| - 1), before);
      SizeKept(g, events[|events| - 1]);
      NextRel(first, g, Link.Run(Link.Init(memory, first), before), events[|events| - 1]);
    }
  }

  lemma SizeKept(g: Net, e: Link.Event)
    ensures Next(g, e).size == g.size
  {
  }
}
