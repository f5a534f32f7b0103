/** Which packets the sender puts on the leg, told by their places among the stamped payloads. */
module Retransmission {
  import opened Protocol
  import opened SenderSpec
  import opened Link
  import Termination
  import WindowBuffer

  /** How the `k`-th packet of the window looks on the wire, from the counter and the payloads alone. */
  function OnWire(s: State, k: nat): Frame
    requires 0 <= Departed(s) && k < s.tx.view.count
  {
    Frame(Low5(s.tx.seqNo - s.tx.view.count + k), Request, s.stamped[Departed(s) + k])
  }

  /** The first `n` of them, in order. */
  function FirstOnWire(s: State, n: nat): (frames: seq<Frame>)
    requires 0 <= Departed(s) && n <= s.tx.view.count
    ensures |frames| == n && forall k | 0 <= k < n :: frames[k] == OnWire(s, k)
  {
    seq(n, k requires 0 <= k < n => OnWire(s, k))
  }

  lemma SlotsOnWire(s: State, n: nat)
    requires s.Valid() && WindowBuffer.Numbered(s.tx.view, s.tx.seqNo, s.stamped) && n <= s.tx.view.count
    ensures 0 <= Departed(s) && s.tx.view.slots[..n] == FirstOnWire(s, n)
  {
  }

  /** SENDING. In every run, a transmission puts all packets of the window on the leg, each once and in
      order; if there is none, what slot 0 holds. It starts with 1000 retries, no tag and no ACK seen. */
  lemma TransmitSends(memory: seq<Frame>, first: nat, events: seq<Event>)
    requires 2 <= |memory| <= SEQUENCE_NUM_MAX + 1 && first < UINT_RANGE
    ensures var s := Run(Init(memory, first), events);
            var t := Next(s, Transmit);
            s.tx.phase == Idle && s.stamped != [] ==>
              && 0 <= Departed(s)
              && t.toRouter == s.toRouter +
                   (if s.tx.view.count > 0 then FirstOnWire(s, s.tx.view.count) else [s.tx.view.slots[0]])
              && t.tx.phase == Waiting && t.tx.retry == 1000 && !t.tx.waitForAck
              && (forall k | 0 <= k < 32 :: !t.tx.view.acked[k])
              && t.tx.view.Live() == s.tx.view.Live() && t.tx.seqNo == s.tx.seqNo && t.stamped == s.stamped
  {
    hide Run;
    WindowBuffer.RunKeeps(memory, first, events);
    var s := Run(Init(memory, first), events);
    var v := s.tx.view;
    SlotsOnWire(s, v.count);
    if v.count > 0 {
      assert v.slots[..v.count - 1] + [v.slots[v.count - 1]] == v.slots[..v.count];
    } else {
      assert v.slots[..0] + [v.slots[0]] == [v.slots[0]];
    }
  }

  /** SENDING AGAIN. In every run, a timeout costs one retry, clears every tag, and puts on the leg: all
      packets of the window but the last, in order; then the one before the last again, or the only one;
      then the last one if the call has seen no ACK. After the last retry a probe numbered by the counter
      takes that place, and the call has failed. */
  lemma TimeOutSends(memory: seq<Frame>, first: nat, events: seq<Event>)
    requires 2 <= |memory| <= SEQUENCE_NUM_MAX + 1 && first < UINT_RANGE
    ensures var s := Run(Init(memory, first), events);
            var t, n := Next(s, TimeOut), s.tx.view.count;
            s.tx.phase == Waiting && n > 0 ==>
              && 0 <= Departed(s)
              && t.toRouter == s.toRouter + FirstOnWire(s, n - 1) + [OnWire(s, if n >= 2 then n - 2 else 0)] +
                   (if s.tx.retry == 1 then [Frame(Low5(s.tx.seqNo), Sack, ZeroData())]
                    else if s.tx.waitForAck then [] else [OnWire(s, n - 1)])
              && t.tx.retry == s.tx.retry - 1 && t.tx.phase == (if s.tx.retry == 1 then Failed else Waiting)
              && (forall k | 0 <= k < 32 :: !t.tx.view.acked[k])
              && t.tx.view.Live() == s.tx.view.Live() && t.tx.seqNo == s.tx.seqNo && t.stamped == s.stamped
              && t.tx.waitForAck == s.tx.waitForAck
  {
    hide Run, Resend, OnWire, FirstOnWire, WindowBuffer.Numbered, Low5;
    WindowBuffer.RunKeeps(memory, first, events);
    var s := Run(Init(memory, first), events);
    if s.tx.phase == Waiting && s.tx.view.count > 0 {
      ResendOnWire(s);
    }
  }

  lemma ResendOnWire(s: State)
    requires s.Valid() && WindowBuffer.Numbered(s.tx.view, s.tx.seqNo, s.stamped) && s.tx.view.count > 0
    ensures var n := s.tx.view.count;
            && 0 <= Departed(s) && s.tx.view.slots[n - 1] == OnWire(s, n - 1)
            && Resend(s.tx.view) == FirstOnWire(s, n - 1) + [OnWire(s, if n >= 2 then n - 2 else 0)]
  {
    var v := s.tx.view;
    SlotsOnWire(s, v.count - 1);
    SlotsOnWire(s, v.count);
    assert forall k | 0 <= k < v.count :: v.slots[k] == v.slots[..v.count][k] == OnWire(s, k);
  }

  /** An empty window sends what slot 0 holds, whatever that is. */
  lemma TimeOutOfNothing(s: State)
    requires s.Valid() && s.tx.phase == Waiting && s.tx.view.count == 0
    ensures Next(s, TimeOut).toRouter == s.toRouter + [s.tx.view.slots[0]] +
              (if s.tx.retry == 1 then [Frame(Low5(s.tx.seqNo), Sack, ZeroData())]
               else if s.tx.waitForAck then [] else [s.tx.view.slots[0]])
  {
    assert s.tx.view.slots[..0] == [];
  }

  // ----- when the last packet is no longer sent again -----

  /** An ACK, or a packet that a receiver would take next: what makes the call wait only. */
  predicate StopsResending(lastSeq: int, a: Arrival) {
    && a.Datagram?
    && (a.frame.ackType == Ack ||
        (a.frame.ackType in {Request, Handshake} && a.frame.seqNum == Low5(lastSeq + 1)))
  }

  ghost predicate SomeStops(lastSeq: int, arrivals: seq<Arrival>) {
    exists k :: 0 <= k < |arrivals| && StopsResending(lastSeq, arrivals[k])
  }

  lemma SomeStopsMore(lastSeq: int, arrivals: seq<Arrival>, a: Arrival)
    ensures SomeStops(lastSeq, arrivals + [a]) <==> SomeStops(lastSeq, arrivals) || StopsResending(lastSeq, a)
  {
    hide StopsResending;
    var all := arrivals + [a];
    if k :| 0 <= k < |all| && StopsResending(lastSeq, all[k]) {
      assert k < |arrivals| ==> StopsResending(lastSeq, arrivals[k]);
    }
    if k :| 0 <= k < |arrivals| && StopsResending(lastSeq, arrivals[k]) {
      assert StopsResending(lastSeq, all[k]);
    }
    if StopsResending(lastSeq, a) {
      assert StopsResending(lastSeq, all[|arrivals|]);
    }
  }

  /** A call that is still waiting leaves out the last packet exactly when it has met such a datagram. */
  lemma {:induction false} WaitsForAckExactly(s: Sender, arrivals: seq<Arrival>)
    requires s.Valid() && Termination.After(Begin(s), arrivals).phase == Waiting
    ensures var t := Termination.After(Begin(s), arrivals);
            t.lastSeq == s.lastSeq && (t.waitForAck <==> SomeStops(s.lastSeq, arrivals))
  {
    hide OnArrival, StopsResending;
    if arrivals != [] {
      var before, a := arrivals[..|arrivals| - 1], arrivals[|arrivals| - 1];
      assert arrivals == before + [a];
      WaitsForAckExactly(s, before);
      OneStops(Termination.After(Begin(s), before), a);
      SomeStopsMore(s.lastSeq, before, a);
    }
  }

  lemma OneStops(s: Sender, a: Arrival)
    requires s.Valid() && s.phase == Waiting && OnArrival(s, a).0.phase == Waiting
    ensures var t := OnArrival(s, a).0;
            t.lastSeq == s.lastSeq && (t.waitForAck <==> s.waitForAck || StopsResending(s.lastSeq, a))
  {
    hide Mark, AckRun, Remove;
  }

  // ----- what a retransmission achieves -----

  function Deliveries(n: nat): (events: seq<Event>)
    ensures |events| == n
  {
    seq(n, _ => Deliver)
  }

  function Datas(frames: seq<Frame>): (datas: seq<Payload>)
    ensures |datas| == |frames|
  {
    seq(|frames|, k requires 0 <= k < |frames| => frames[k].data)
  }

  lemma DeliverMore(u: State, n: nat)
    requires u.Valid()
    ensures Run(u, Deliveries(n + 1)) == Next(Run(u, Deliveries(n)), Deliver)
  {
    hide Next;
    assert Deliveries(n + 1)[..n] == Deliveries(n);
  }

  lemma TakeOne(u: State, f: Frame)
    requires u.Valid() && u.toReceiver != [] && u.toReceiver[0] == f && u.lastSeq != -1 && f.ackType == Request
    ensures var t := Next(u, Deliver);
            && t.toReceiver == u.toReceiver[1..]
            && (if f.seqNum == Low5(u.lastSeq + 1) then
                  t.lastSeq == Low5(u.lastSeq + 1) && t.accepted == u.accepted + [f.data]
                else t.lastSeq == u.lastSeq && t.accepted == u.accepted)
  {
  }

  /** Packets that come in the order the receiver waits for are all taken. */
  lemma {:induction false} TakenInOrder(u: State, n: nat)
    requires u.Valid() && u.lastSeq != -1 && n <= |u.toReceiver|
    requires forall k: nat | k < n ::
               u.toReceiver[k].ackType == Request && u.toReceiver[k].seqNum == Low5(u.lastSeq + 1 + k)
    ensures var t := Run(u, Deliveries(n));
            && t.toReceiver == u.toReceiver[n..] && t.lastSeq == Low5(u.lastSeq + n)
            && t.accepted == u.accepted + Datas(u.toReceiver[..n])
  {
    hide Next, Low5;
    if n == 0 {
      assert Deliveries(0) == [] && Run(u, []) == u by { RunNone(u); }
      Low5Small(u.lastSeq);
      assert u.accepted + Datas(u.toReceiver[..0]) == u.accepted;
    } else {
      TakenInOrder(u, n - 1);
      DeliverMore(u, n - 1);
      hide Run;
      var t, f := Run(u, Deliveries(n - 1)), u.toReceiver[n - 1];
      Low5Sum(u.lastSeq + n - 1, 1);
      TakeOne(t, f);
      assert u.accepted + Datas(u.toReceiver[..n]) == u.accepted + Datas(u.toReceiver[..n - 1]) + [f.data];
    }
  }

  lemma Low5Small(n: int)
    requires 0 <= n < SEQUENCE_NUM_MAX
    ensures Low5(n) == n
  {
  }

  /** RECOVERY. If everything that a timeout sends gets through, in order, to a receiver that waits for the
      base packet, the receiver takes every packet of the window but the last; and the last as well if the
      call has seen no ACK, or if it is the only one. */
  lemma ResendDelivers(s: State, u: State, whole: bool)
    requires s.Valid() && 0 <= Departed(s) && s.tx.view.count > 0 && u.Valid() && u.lastSeq != -1
    requires u.lastSeq == Low5(s.tx.seqNo - s.tx.view.count - 1)
    requires var n := s.tx.view.count;
             u.toReceiver == FirstOnWire(s, n - 1) + [OnWire(s, if n >= 2 then n - 2 else 0)] +
                             if whole then [OnWire(s, n - 1)] else []
    ensures var n := s.tx.view.count;
            Run(u, Deliveries(|u.toReceiver|)).accepted ==
            u.accepted + s.stamped[Departed(s)..Departed(s) + if whole || n == 1 then n else n - 1]
  {
    hide Run, Next, Low5, OnWire, FirstOnWire, Datas;
    var n, base := s.tx.view.count, s.tx.seqNo - s.tx.view.count;
    FramesRead(s, u, whole);
    TakenInOrder(u, n - 1);
    Low5Sum(base - 1, n - 1);
    TailTaken(s, u, whole);
    var all := s.stamped[Departed(s)..Departed(s) + n];
    assert all == s.stamped[Departed(s)..Departed(s) + n - 1] + [s.stamped[Departed(s) + n - 1]];
  }

  lemma FramesRead(s: State, u: State, whole: bool)
    requires s.Valid() && 0 <= Departed(s) && s.tx.view.count > 0
    requires u.lastSeq == Low5(s.tx.seqNo - s.tx.view.count - 1)
    requires var n := s.tx.view.count;
             u.toReceiver == FirstOnWire(s, n - 1) + [OnWire(s, if n >= 2 then n - 2 else 0)] +
                             if whole then [OnWire(s, n - 1)] else []
    ensures var n := s.tx.view.count;
            && (forall k: nat | k < n - 1 ::
                  u.toReceiver[k].ackType == Request && u.toReceiver[k].seqNum == Low5(u.lastSeq + 1 + k))
            && Datas(u.toReceiver[..n - 1]) == s.stamped[Departed(s)..Departed(s) + n - 1]
            && u.toReceiver[n - 1..] ==
               [OnWire(s, if n >= 2 then n - 2 else 0)] + if whole then [OnWire(s, n - 1)] else []
  {
    hide Low5;
    var n, base := s.tx.view.count, s.tx.seqNo - s.tx.view.count;
    assert u.toReceiver[..n - 1] == FirstOnWire(s, n - 1);
    forall k: nat | k < n - 1
      ensures u.toReceiver[k].ackType == Request && u.toReceiver[k].seqNum == Low5(u.lastSeq + 1 + k)
    {
      assert u.toReceiver[k] == FirstOnWire(s, n - 1)[k];
      Low5Sum(base - 1, 1 + k);
    }
  }

  /** What is behind the first packets of a retransmission: one of them once more, and perhaps the last. */
  lemma TailTaken(s: State, u: State, whole: bool)
    requires s.Valid() && 0 <= Departed(s) && s.tx.view.count > 0 && u.Valid()
    requires var n, t := s.tx.view.count, Run(u, Deliveries(s.tx.view.count - 1));
             && t.lastSeq == Low5(s.tx.seqNo - n + n - 2)
             && t.toReceiver == [OnWire(s, if n >= 2 then n - 2 else 0)] + (if whole then [OnWire(s, n - 1)] else [])
             && |u.toReceiver| == n - 1 + |t.toReceiver|
    ensures var n, t := s.tx.view.count, Run(u, Deliveries(s.tx.view.count - 1));
            Run(u, Deliveries(|u.toReceiver|)).accepted ==
            t.accepted + if whole || n == 1 then [s.stamped[Departed(s) + n - 1]] else []
  {
    hide Run, Next, Low5;
    var n, base := s.tx.view.count, s.tx.seqNo - s.tx.view.count;
    var t1 := Run(u, Deliveries(n - 1));
    Low5Sum(base + n - 2, 1);
    Low5Injective(base + n - 2, base + n - 1);
    DeliverMore(u, n - 1);
    TakeOne(t1, t1.toReceiver[0]);
    if whole {
      var t2 := Run(u, Deliveries(n));
      assert t2.toReceiver == [OnWire(s, n - 1)];
      DeliverMore(u, n);
      Low5Sum(base + n - 1, 1);
      Low5Injective(base + n - 1, base + n);
      TakeOne(t2, t2.toReceiver[0]);
    }
  }
}
