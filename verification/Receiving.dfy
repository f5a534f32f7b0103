/** Receiving calls of the library inside runs of the system. */
module Receiving {
  import opened Protocol
  import opened SenderSpec
  import opened Link
  import RouterSpec

  // ----- no handshake frame is ever under way -----

  ghost predicate PlainFrames(frames: seq<Frame>) {
    forall f | f in frames :: f.ackType != Handshake
  }

  ghost predicate PlainWindow(s: State) {
    && s.Valid() && s.tx.view.count <= |s.stamped|
    && (forall k: nat | k < s.tx.view.count :: s.tx.view.slots[k].ackType == Request)
    && (s.stamped != [] ==> s.tx.view.slots[0].ackType == Request)
    && (s.stamped == [] ==> s.tx.phase == Idle)
  }

  ghost predicate Plain(s: State) {
    && PlainWindow(s) && PlainFrames(s.toReceiver)
    && PlainFrames(RouterSpec.HeldFor(s.router, RouterSpec.Peer2) + s.toRouter)
  }

  lemma ShiftPlain(v: Window, i: nat)
    requires v.Valid() && 0 < i <= v.count && forall k: nat | k < v.count :: v.slots[k].ackType == Request
    ensures forall k: nat | k < v.count - i :: Shift(v, i).slots[k].ackType == Request
    ensures Shift(v, i).slots[0].ackType == Request
  {
    var v' := Shift(v, i);
    assert forall k: nat | k < v'.count :: v'.slots[k] == v.slots[i + k];
  }

  lemma RemovePlain(v: Window, num: SeqNum)
    requires v.Valid() && v.slots[0].ackType == Request && forall k: nat | k < v.count :: v.slots[k].ackType == Request
    ensures var v' := Remove(v, num);
            v'.slots[0].ackType == Request && forall k: nat | k < v'.count :: v'.slots[k].ackType == Request
  {
    hide Shift, Find;
    if Find(v.Live(), num) < v.count {
      ShiftPlain(v, Find(v.Live(), num) + 1);
    }
  }

  lemma ArrivalPlain(s: State, a: Arrival)
    requires PlainWindow(s) && s.tx.phase == Waiting
    ensures var (tx, frames) := OnArrival(s.tx, a);
            PlainWindow(s.(tx := tx)) && PlainFrames(frames)
  {
    hide Mark, Remove, AckRun;
    match a
    case TimedOut =>
    case Datagram(f) =>
      RemovePlain(s.tx.view, Low5(f.seqNum - 1));
      var v := Mark(s.tx.view, f.seqNum);
      if AckRun(v) > 0 {
        RemovePlain(v, v.slots[AckRun(v) - 1].seqNum);
      }
  }

  lemma NextPlain(s: State, e: Event)
    requires Plain(s)
    ensures Plain(Next(s, e))
  {
    hide OnArrival, Check, RouterSpec.OnPacket, RouterSpec.OnQuiet;
    match e
    case RouteData(delayed, damaged) =>
      if s.toRouter != [] {
        RouterSpec.PacketMembers(s.toReceiver, s.router, s.toRouter, RouterSpec.Peer2, delayed, damaged);
      }
    case RouteReply(delayed, damaged) =>
      if s.back != [] {
        RouterSpec.OtherSlotKept(s.router, RouterSpec.Peer1, s.back[0], delayed, damaged, RouterSpec.Peer2);
      }
    case RouteQuiet => RouterSpec.QuietMembers(s.toReceiver, s.router, s.toRouter, RouterSpec.Peer2);
    case TimeOut =>
      if s.tx.phase == Waiting {
        ArrivalPlain(s, TimedOut);
      }
    case TakeReply =>
      if s.tx.phase == Waiting && s.toSender != [] {
        ArrivalPlain(s, Datagram(s.toSender[0]));
      }
    case _ =>
  }

  // ----- the receiving calls -----

  function Arrivals(frames: seq<Frame>): seq<Arrival> {
    seq(|frames|, i requires 0 <= i < |frames| => Datagram(frames[i]))
  }

  /** The datagrams among the arrivals. */
  function Frames(inbox: seq<Arrival>): seq<Frame> {
    if inbox == [] then []
    else (if inbox[0].TimedOut? then [] else [inbox[0].frame]) + Frames(inbox[1..])
  }

  function Delivered(s: State, events: seq<Event>): seq<Frame>
    requires s.Valid()
  {
    if events == [] then []
    else
      var t := Run(s, events[..|events| - 1]);
      Delivered(s, events[..|events| - 1]) +
      if events[|events| - 1] == Deliver && t.toReceiver != [] then [t.toReceiver[0]] else []
  }

  function Replied(s: State, events: seq<Event>): seq<Frame>
    requires s.Valid()
  {
    if events == [] then []
    else
      var t := Run(s, events[..|events| - 1]);
      Replied(s, events[..|events| - 1]) +
      if events[|events| - 1] == Deliver && t.toReceiver != [] then Check(t.lastSeq, t.toReceiver[0]).reply else []
  }

  function Listening(s: State, inbox: seq<Arrival>, sent: seq<Frame>): Receiver {
    Receiver(s.lastSeq, inbox, sent, s.accepted)
  }

  lemma StepOfListening(s: State, hsData: Payload, more: seq<Arrival>, sent: seq<Frame>, goal: nat)
    requires s.Valid() && |s.accepted| < goal && s.toReceiver != [] && s.toReceiver[0].ackType != Handshake
    ensures Listen(Listening(s, [Datagram(s.toReceiver[0])] + more, sent), hsData, goal) ==
            Listen(Listening(Next(s, Deliver), more, sent + Check(s.lastSeq, s.toReceiver[0]).reply), hsData, goal)
  {
    hide Check, Listen;
    var r := Listening(s, [Datagram(s.toReceiver[0])] + more, sent);
    ListenTurn(r, hsData, goal);
    assert r.inbox[1..] == more;
  }

  /** The last step of a run, seen from the receiver. */
  lemma LastStep(s: State, before: seq<Event>, e: Event)
    requires s.Valid()
    ensures var t := Run(s, before);
            && Run(s, before + [e]) == Next(t, e)
            && Delivered(s, before + [e]) ==
               Delivered(s, before) + (if e == Deliver && t.toReceiver != [] then [t.toReceiver[0]] else [])
            && Replied(s, before + [e]) ==
               Replied(s, before) +
               if e == Deliver && t.toReceiver != [] then Check(t.lastSeq, t.toReceiver[0]).reply else []
  {
    hide Next, Check;
    assert (before + [e])[..|before|] == before;
  }

  /** The same for sock_recvfrom and recv_file, in any run in which fewer payloads than asked for were
      accepted before the last step. */
  lemma {:induction false} ListenInRun(s: State, events: seq<Event>, hsData: Payload, more: seq<Arrival>,
                                       sent: seq<Frame>, goal: nat)
    requires s.Valid() && PlainFrames(Delivered(s, events))
    requires events != [] ==> |Run(s, events[..|events| - 1]).accepted| < goal
    requires |s.accepted| <= goal
    ensures |Run(s, events).accepted| <= goal
    ensures Listen(Listening(s, Arrivals(Delivered(s, events)) + more, sent), hsData, goal) ==
            Listen(Listening(Run(s, events), more, sent + Replied(s, events)), hsData, goal)
  {
    if events == [] {
      Nothing(s, more, sent);
    } else {
      var before, e := events[..|events| - 1], events[|events| - 1];
      assert events == before + [e];
      ListenOneMore(s, before, e, hsData, more, sent, goal);
      LastStep(s, before, e);
      AcceptedGrows(s, before);
      hide Listen, Arrivals, Next, Run, Delivered, Replied;
      var t := Run(s, before);
      var next := if e == Deliver && t.toReceiver != [] then [Datagram(t.toReceiver[0])] else [];
      assert forall f | f in Delivered(s, before) :: f in Delivered(s, events);
      ListenInRun(s, before, hsData, next + more, sent, goal);
    }
  }

  lemma Nothing(s: State, more: seq<Arrival>, sent: seq<Frame>)
    requires s.Valid()
    ensures Listening(s, Arrivals(Delivered(s, [])) + more, sent) == Listening(Run(s, []), more, sent + Replied(s, []))
  {
    assert Arrivals(Delivered(s, [])) + more == more && sent + Replied(s, []) == sent;
  }

  lemma ListenOneMore(s: State, before: seq<Event>, e: Event, hsData: Payload, more: seq<Arrival>,
                      sent: seq<Frame>, goal: nat)
    requires s.Valid() && |Run(s, before).accepted| < goal && PlainFrames(Delivered(s, before + [e]))
    ensures var t := Run(s, before);
            var next := if e == Deliver && t.toReceiver != [] then [Datagram(t.toReceiver[0])] else [];
            var t' := Run(s, before + [e]);
            && |t'.accepted| <= goal
            && Arrivals(Delivered(s, before + [e])) + more == Arrivals(Delivered(s, before)) + (next + more)
            && Listen(Listening(t, next + more, sent + Replied(s, before)), hsData, goal) ==
               Listen(Listening(t', more, sent + Replied(s, before + [e])), hsData, goal)
  {
    hide Listen, Check, Arrivals, Run, Delivered, Replied;
    LastStep(s, before, e);
    var t := Run(s, before);
    if e == Deliver && t.toReceiver != [] {
      var f := t.toReceiver[0];
      assert f in Delivered(s, before + [e]);
      ArrivalsOneMore(Delivered(s, before), f);
      assert Arrivals(Delivered(s, before)) + [Datagram(f)] + more ==
             Arrivals(Delivered(s, before)) + ([Datagram(f)] + more);
      StepOfListening(t, hsData, more, sent + Replied(s, before), goal);
      assert sent + Replied(s, before + [e]) == sent + Replied(s, before) + Check(t.lastSeq, f).reply;
    } else {
      OtherStep(t, e);
      assert Delivered(s, before + [e]) == Delivered(s, before) && Replied(s, before + [e]) == Replied(s, before);
      assert [] + more == more;
    }
  }

  lemma ArrivalsOneMore(frames: seq<Frame>, f: Frame)
    ensures Arrivals(frames + [f]) == Arrivals(frames) + [Datagram(f)]
  {
  }

  lemma OtherStep(s: State, e: Event)
    requires s.Valid() && !(e == Deliver && s.toReceiver != [])
    ensures Next(s, e).lastSeq == s.lastSeq && Next(s, e).accepted == s.accepted
  {
  }

  lemma {:induction false} AcceptedGrows(s: State, events: seq<Event>)
    requires s.Valid()
    ensures forall k: nat | k <= |events| :: Run(s, events[..k]).accepted <= Run(s, events).accepted
  {
    hide Next;
    assert events[..|events|] == events;
    if events != [] {
      var before := events[..|events| - 1];
      AcceptedGrows(s, before);
      assert forall k: nat | k <= |before| :: before[..k] == events[..k];
      StepGrows(Run(s, before), events[|events| - 1]);
    }
  }

  lemma StepGrows(s: State, e: Event)
    requires s.Valid()
    ensures s.accepted <= Next(s, e).accepted
  {
    hide OnArrival, Check;
  }

  /** Timeouts of the receiver's select are without effect: only the datagrams count. */
  lemma {:induction false} ListenQuiet(r: Receiver, hsData: Payload, goal: nat)
    requires -1 <= r.lastSeq < SEQUENCE_NUM_MAX && |r.accepted| <= goal
    ensures var p, q := Listen(r, hsData, goal), Listen(r.(inbox := Arrivals(Frames(r.inbox))), hsData, goal);
            p == q.(inbox := p.inbox)
    decreases |r.inbox|
  {
    hide Hear, Listen;
    var q := r.(inbox := Arrivals(Frames(r.inbox)));
    ListenTurn(r, hsData, goal);
    ListenTurn(q, hsData, goal);
    if |r.accepted| < goal && r.inbox != [] {
      HearsFrames(r, hsData);
      ListenQuiet(Hear(r, hsData), hsData, goal);
    }
  }

  lemma HearsFrames(r: Receiver, hsData: Payload)
    requires -1 <= r.lastSeq < SEQUENCE_NUM_MAX && r.inbox != []
    ensures |r.accepted| <= |Hear(r, hsData).accepted| <= |r.accepted| + 1
    ensures var r', q := Hear(r, hsData), r.(inbox := Arrivals(Frames(r.inbox)));
            if r.inbox[0].TimedOut? then r'.(inbox := Arrivals(Frames(r'.inbox))) == q
            else q.inbox != [] && Hear(q, hsData) == r'.(inbox := Arrivals(Frames(r'.inbox)))
  {
    hide Check;
    if r.inbox[0].Datagram? {
      assert Frames(r.inbox) == [r.inbox[0].frame] + Frames(r.inbox[1..]);
      assert Arrivals(Frames(r.inbox))[1..] == Arrivals(Frames(r.inbox[1..]));
    } else {
      assert Frames(r.inbox) == Frames(r.inbox[1..]);
    }
  }

  lemma {:induction false} RunPlain(memory: seq<Frame>, first: nat, events: seq<Event>)
    requires 2 <= |memory| <= SEQUENCE_NUM_MAX + 1 && first < UINT_RANGE
    ensures Plain(Run(Init(memory, first), events)) && PlainFrames(Delivered(Init(memory, first), events))
  {
    hide Next;
    if events != [] {
      RunPlain(memory, first, events[..|events| - 1]);
      NextPlain(Run(Init(memory, first), events[..|events| - 1]), events[|events| - 1]);
    }
  }

  /** RECEIVING IS A RUN. In every run from a reset receiver on, as long as fewer payloads than asked for
      were accepted before the last step, the receiving calls are where their specification is after the
      datagrams delivered so far, with timeouts anywhere between them. */
  lemma ReceivingInRun(memory: seq<Frame>, first: nat, events: seq<Event>, hsData: Payload, inbox: seq<Arrival>,
                       goal: nat)
    requires 2 <= |memory| <= SEQUENCE_NUM_MAX + 1 && first < UINT_RANGE
    requires events != [] ==> |Run(Init(memory, first), events[..|events| - 1]).accepted| < goal
    requires Frames(inbox) == Delivered(Init(memory, first), events)
    ensures var s, r := Run(Init(memory, first), events), Listen(Receiver(-1, inbox, [], []), hsData, goal);
            r.lastSeq == s.lastSeq && r.sent == Replied(Init(memory, first), events) && r.accepted == s.accepted
  {
    hide Listen, Frames, Arrivals;
    var s0 := Init(memory, first);
    RunPlain(memory, first, events);
    ListenQuiet(Receiver(-1, inbox, [], []), hsData, goal);
    ListenInRun(s0, events, hsData, [], [], goal);
    var frames := Arrivals(Delivered(s0, events));
    assert frames + [] == frames;
    ListenTurn(Listening(Run(s0, events), [], [] + Replied(s0, events)), hsData, goal);
  }

  // ----- what has been taken by then -----

  /** A call that is over does not look at what comes later. */
  lemma {:induction false} ListenMore(r: Receiver, hsData: Payload, goal: nat, more: seq<Arrival>)
    requires -1 <= r.lastSeq < SEQUENCE_NUM_MAX && |r.accepted| <= goal
    requires |Listen(r, hsData, goal).accepted| == goal
    ensures var p := Listen(r, hsData, goal);
            Listen(r.(inbox := r.inbox + more), hsData, goal) == p.(inbox := p.inbox + more)
    decreases |r.inbox|
  {
    hide Listen, Check;
    var q := r.(inbox := r.inbox + more);
    ListenTurn(r, hsData, goal);
    ListenTurn(q, hsData, goal);
    if |r.accepted| < goal {
      assert q.inbox[0] == r.inbox[0] && q.inbox[1..] == r.inbox[1..] + more;
      ListenMore(Hear(r, hsData), hsData, goal, more);
    }
  }

  lemma {:induction false} FramesOfArrivals(frames: seq<Frame>)
    ensures Frames(Arrivals(frames)) == frames
  {
    if frames != [] {
      FramesOfArrivals(frames[1..]);
      assert Arrivals(frames)[1..] == Arrivals(frames[1..]);
    }
  }

  /** Steps after the last payload asked for. */
  lemma TakenBefore(s0: State, before: seq<Event>, e: Event, hsData: Payload, goal: nat)
    requires s0.Valid() && s0.accepted == [] && s0.lastSeq == -1 && |Run(s0, before).accepted| >= goal
    requires Listen(Receiver(-1, Arrivals(Delivered(s0, before)), [], []), hsData, goal).accepted ==
             Run(s0, before).accepted[..goal]
    ensures |Run(s0, before + [e]).accepted| >= goal
    ensures Listen(Receiver(-1, Arrivals(Delivered(s0, before + [e])), [], []), hsData, goal).accepted ==
            Run(s0, before + [e]).accepted[..goal]
  {
    hide Listen, Arrivals, Run, Delivered, Next, Frames, Check;
    LastStep(s0, before, e);
    var t, inbox := Run(s0, before), Arrivals(Delivered(s0, before));
    StepGrows(t, e);
    var more := if e == Deliver && t.toReceiver != [] then [Datagram(t.toReceiver[0])] else [];
    ListenMore(Receiver(-1, inbox, [], []), hsData, goal, more);
    if more == [] {
      assert inbox + more == inbox && Delivered(s0, before + [e]) == Delivered(s0, before);
    } else {
      ArrivalsOneMore(Delivered(s0, before), t.toReceiver[0]);
    }
  }

  lemma {:induction false} TakenInRun(memory: seq<Frame>, first: nat, events: seq<Event>, hsData: Payload, goal: nat)
    requires 2 <= |memory| <= SEQUENCE_NUM_MAX + 1 && first < UINT_RANGE
    requires |Run(Init(memory, first), events).accepted| >= goal
    ensures Listen(Receiver(-1, Arrivals(Delivered(Init(memory, first), events)), [], []), hsData, goal).accepted ==
            Run(Init(memory, first), events).accepted[..goal]
  {
    hide Listen, Arrivals, Run, Delivered, Next, Frames;
    var s0 := Init(memory, first);
    if events == [] {
      assert Run(s0, []) == s0 by { RunNone(s0); }
      ListenTurn(Receiver(-1, Arrivals(Delivered(s0, [])), [], []), hsData, goal);
    } else {
      var before, e := events[..|events| - 1], events[|events| - 1];
      if |Run(s0, before).accepted| >= goal {
        TakenInRun(memory, first, before, hsData, goal);
        TakenBefore(s0, before, e, hsData, goal);
        assert events == before + [e];
      } else {
        FramesOfArrivals(Delivered(s0, events));
        ReceivingInRun(memory, first, events, hsData, Arrivals(Delivered(s0, events)), goal);
      }
    }
  }

  /** In every run in which `goal` payloads or more were accepted, receiving calls that ask for `goal` have
      returned with the first ones accepted, whatever the run went on to do. */
  lemma ReceivedInRun(memory: seq<Frame>, first: nat, events: seq<Event>, hsData: Payload, inbox: seq<Arrival>,
                      goal: nat)
    requires 2 <= |memory| <= SEQUENCE_NUM_MAX + 1 && first < UINT_RANGE
    requires |Run(Init(memory, first), events).accepted| >= goal
    requires Frames(inbox) == Delivered(Init(memory, first), events)
    ensures Listen(Receiver(-1, inbox, [], []), hsData, goal).accepted ==
            Run(Init(memory, first), events).accepted[..goal]
  {
    hide Listen, Frames, Arrivals, Run, Delivered;
    TakenInRun(memory, first, events, hsData, goal);
    ListenQuiet(Receiver(-1, inbox, [], []), hsData, goal);
  }
}
