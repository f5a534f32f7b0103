/** How a reset receiver finds out where the sender's numbers begin: in every run, clean or not. */
module Synchronisation {
  import opened Protocol
  import opened SenderSpec
  import opened Link
  import RouterSpec

  /** The first data packet that reaches a reset receiver is packet 0: it fixes lastSeq so that the packet
      is accepted; and from then on lastSeq is one less than the number of the next packet. */
  ghost predicate Synchronised(first: nat, s: State)
    requires s.Valid()
  {
    && (s.lastSeq == -1 && s.toReceiver != [] && s.toReceiver[0].ackType == Request ==>
          && |s.stamped| == 1 && s.toReceiver[0] == Frame(Low5(first), Request, s.stamped[0])
          && Next(s, Deliver).accepted == s.stamped)
    && (s.accepted != [] ==> s.lastSeq == Low5(first + |s.accepted| - 1))
  }

  // ----- until the first packet is accepted -----

  /** Packet 0, or the probe that follows the last retransmission of it. */
  ghost predicate Early(first: nat, s: State, f: Frame) {
    && |s.stamped| == 1
    && (f == Frame(Low5(first), Request, s.stamped[0]) || (f == Reply(first + 1, Sack) && s.tx.phase == Failed))
  }

  ghost predicate AllEarly(first: nat, s: State, frames: seq<Frame>) {
    forall f | f in frames :: Early(first, s, f)
  }

  function HeldTo(s: State, dest: RouterSpec.Peer): seq<Frame> {
    RouterSpec.HeldFor(s.router, dest)
  }

  ghost predicate DataEarly(first: nat, s: State) {
    AllEarly(first, s, s.toReceiver) && AllEarly(first, s, HeldTo(s, RouterSpec.Peer2) + s.toRouter)
  }

  /** The sender has stamped no more than packet 0, and nothing has taken it out of the window. */
  ghost predicate FirstInWindow(first: nat, s: State) {
    && s.Valid() && s.tx.view.count == |s.stamped| <= 1
    && (if s.stamped == [] then s.tx.phase == Idle && s.tx.seqNo == first
        else s.tx.seqNo == (first + 1) % UINT_RANGE
             && s.tx.view.slots[0] == Frame(Low5(first), Request, s.stamped[0]))
  }

  /** Nothing has reached the receiver: it has never replied. */
  ghost predicate Waits(first: nat, s: State) {
    && s.Valid() && FirstInWindow(first, s) && s.accepted == [] && s.lastSeq == -1 && DataEarly(first, s)
    && s.back == s.toSender == HeldTo(s, RouterSpec.Peer1) == []
  }

  /** The probe of a sender that has given up was the first frame to reach the receiver. */
  ghost predicate Misled(first: nat, s: State) {
    s.Valid() && s.tx.phase == Failed && s.accepted == [] && s.lastSeq == Low5(first) && DataEarly(first, s)
  }

  ghost predicate Follows(first: nat, s: State) {
    s.Valid() && s.accepted != [] && s.lastSeq == Low5(first + |s.accepted| - 1)
  }

  ghost predicate Inv(first: nat, s: State) {
    Waits(first, s) || Misled(first, s) || Follows(first, s)
  }

  // ----- steps -----

  /** Taking a frame: the next packet is accepted, and any other leaves the receiver where it was. */
  lemma FollowsOn(first: nat, s: State, e: Event)
    requires Follows(first, s)
    ensures Follows(first, Next(s, e))
  {
    hide OnArrival, Low5;
    Low5Sum(first + |s.accepted| - 1, 1);
  }

  /** Routing moves frames and makes none. */
  lemma RoutingKeeps(first: nat, s: State, e: Event)
    requires s.Valid() && DataEarly(first, s) && (e.RouteData? || e.RouteReply? || e.RouteQuiet?)
    ensures var t := Next(s, e);
            && DataEarly(first, t)
            && t == s.(router := t.router, toRouter := t.toRouter, toReceiver := t.toReceiver, back := t.back,
                       toSender := t.toSender)
            && (s.back == s.toSender == HeldTo(s, RouterSpec.Peer1) == [] ==>
                  t.back == t.toSender == HeldTo(t, RouterSpec.Peer1) == [])
  {
    hide RouterSpec.OnPacket, RouterSpec.OnQuiet, Early;
    var t := Next(s, e);
    assert forall f :: Early(first, t, f) == Early(first, s, f) by { SameEarly(first, s, t); }
    match e {
      case RouteData(delayed, damaged) =>
        if s.toRouter != [] {
          RouterSpec.PacketMembers(s.toReceiver, s.router, s.toRouter, RouterSpec.Peer2, delayed, damaged);
          RouterSpec.OtherSlotKept(s.router, RouterSpec.Peer2, s.toRouter[0], delayed, damaged, RouterSpec.Peer1);
        }
      case RouteReply(delayed, damaged) =>
        if s.back != [] {
          RouterSpec.OtherSlotKept(s.router, RouterSpec.Peer1, s.back[0], delayed, damaged, RouterSpec.Peer2);
        }
      case RouteQuiet =>
        RouterSpec.QuietMembers(s.toReceiver, s.router, s.toRouter, RouterSpec.Peer2);
        QuietStaysEmpty(s);
    }
  }

  lemma QuietStaysEmpty(s: State)
    requires s.Valid()
    ensures s.back == s.toSender == HeldTo(s, RouterSpec.Peer1) == [] ==>
              Next(s, RouteQuiet).toSender == HeldTo(Next(s, RouteQuiet), RouterSpec.Peer1) == []
  {
  }

  lemma SameEarly(first: nat, s: State, t: State)
    requires t.stamped == s.stamped && t.tx == s.tx
    ensures forall f :: Early(first, t, f) == Early(first, s, f)
  {
  }

  lemma Empties(frames: seq<Frame>)
    ensures (forall f | f in frames :: false) ==> frames == []
  {
    if frames != [] {
      assert frames[0] in frames;
    }
  }

  /** What the sender may do before any reply: stamp packet 0, and send it over and over. */
  lemma SendingKeeps(first: nat, s: State, e: Event)
    requires first < UINT_RANGE && Waits(first, s) && (e.Give? || e.Transmit? || e.TimeOut? || e.TakeReply?)
    ensures Waits(first, Next(s, e))
  {
    Low5OfUint(first + 1);
    var t := Next(s, e);
    if e.Give? && MayGive(s) {
      NothingSent(first, s);
    } else if e.Transmit? && s.tx.phase == Idle && s.stamped != [] {
      assert forall f :: Early(first, s, f) ==> Early(first, t, f);
      assert Burst(s.tx.view) == [s.tx.view.slots[0]];
    } else if e.TimeOut? && s.tx.phase == Waiting {
      assert forall f :: Early(first, s, f) ==> Early(first, t, f);
      assert Resend(s.tx.view) == [s.tx.view.slots[0], s.tx.view.slots[0]]
             || Resend(s.tx.view) == [s.tx.view.slots[0]];
    }
  }

  /** Before packet 0 is stamped no frame is on its way. */
  lemma NothingSent(first: nat, s: State)
    requires DataEarly(first, s) && s.stamped == []
    ensures s.toReceiver == s.toRouter == HeldTo(s, RouterSpec.Peer2) == []
  {
    Empties(s.toReceiver);
    Empties(HeldTo(s, RouterSpec.Peer2) + s.toRouter);
  }

  /** The first frame to arrive is packet 0, which is accepted, or the probe. */
  lemma FirstDelivery(first: nat, s: State)
    requires Waits(first, s)
    ensures Inv(first, Next(s, Deliver))
    ensures s.toReceiver != [] && s.toReceiver[0].ackType == Request ==>
              && |s.stamped| == 1 && s.toReceiver[0] == Frame(Low5(first), Request, s.stamped[0])
              && Next(s, Deliver).accepted == s.stamped
  {
    if s.toReceiver != [] {
      var f, t := s.toReceiver[0], Next(s, Deliver);
      assert f in s.toReceiver && Early(first, s, f);
      Low5Sum(first, -1);
      Low5Sum(first - 1, 1);
      Low5Sum(first + 1, -1);
      assert forall g | g in t.toReceiver :: g in s.toReceiver;
      SameEarly(first, s, t);
    }
  }

  /** A receiver that was misled never accepts: packet 0 has not the number it waits for. */
  lemma MisledStays(first: nat, s: State, e: Event)
    requires Misled(first, s)
    ensures Misled(first, Next(s, e))
  {
    hide OnArrival, Low5, RouterSpec.OnPacket, RouterSpec.OnQuiet;
    var t := Next(s, e);
    if e.RouteData? || e.RouteReply? || e.RouteQuiet? {
      RoutingKeeps(first, s, e);
    } else {
      SameEarly(first, s, t);
      assert forall f | f in t.toReceiver :: f in s.toReceiver;
      if e == Deliver && s.toReceiver != [] {
        var f := s.toReceiver[0];
        assert f in s.toReceiver && Early(first, s, f);
        Low5Sum(first, 1);
        Low5Injective(first, first + 1);
      }
    }
  }

  lemma NextKeeps(first: nat, s: State, e: Event)
    requires first < UINT_RANGE && Inv(first, s)
    ensures Next(s, e).Valid() && Inv(first, Next(s, e))
  {
    hide Next, Waits, Misled, Follows;
    if Follows(first, s) {
      FollowsOn(first, s, e);
    } else if Misled(first, s) {
      MisledStays(first, s, e);
    } else {
      WaitsKeep(first, s, e);
    }
  }

  lemma WaitsKeep(first: nat, s: State, e: Event)
    requires first < UINT_RANGE && Waits(first, s)
    ensures Inv(first, Next(s, e))
  {
    hide Early, FirstInWindow;
    match e {
      case RouteData(_, _) => RoutingKeeps(first, s, e); MovedWaits(first, s, Next(s, e));
      case RouteReply(_, _) => RoutingKeeps(first, s, e); MovedWaits(first, s, Next(s, e));
      case RouteQuiet => RoutingKeeps(first, s, e); MovedWaits(first, s, Next(s, e));
      case Deliver => FirstDelivery(first, s);
      case LoseData =>
        var t := Next(s, e);
        SameEarly(first, s, t);
        assert forall f | f in t.toReceiver :: f in s.toReceiver;
        MovedWaits(first, s, t);
      case LoseReply =>
      case _ => SendingKeeps(first, s, e);
    }
  }

  lemma MovedWaits(first: nat, s: State, t: State)
    requires Waits(first, s) && DataEarly(first, t) && t.back == t.toSender == HeldTo(t, RouterSpec.Peer1) == []
    requires t == s.(router := t.router, toRouter := t.toRouter, toReceiver := t.toReceiver, back := t.back,
                     toSender := t.toSender)
    ensures Waits(first, t)
  {
    hide DataEarly;
  }

  lemma {:induction false} RunKeeps(memory: seq<Frame>, first: nat, events: seq<Event>)
    requires 2 <= |memory| <= SEQUENCE_NUM_MAX + 1 && first < UINT_RANGE
    ensures Inv(first, Run(Init(memory, first), events))
  {
    if events != [] {
      hide Next, Inv;
      RunKeeps(memory, first, events[..|events| - 1]);
      NextKeeps(first, Run(Init(memory, first), events[..|events| - 1]), events[|events| - 1]);
    }
  }

  /** SYNCHRONISATION. In every run with a window of up to 32 packets, whatever is lost, forgotten or
      mistaken: the first data packet at a reset receiver is packet 0 and is accepted, and from then on
      lastSeq follows from the number of packets accepted. */
  lemma FirstPacketSynchronises(memory: seq<Frame>, first: nat, events: seq<Event>)
    requires 2 <= |memory| <= SEQUENCE_NUM_MAX + 1 && first < UINT_RANGE
    ensures Synchronised(first, Run(Init(memory, first), events))
  {
    hide Run, Next, Low5;
    RunKeeps(memory, first, events);
    var s := Run(Init(memory, first), events);
    if Waits(first, s) {
      FirstDelivery(first, s);
    }
  }
}
