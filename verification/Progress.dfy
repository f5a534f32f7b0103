/** When nothing stale is under way, every transmission followed by one exchange takes at least one
    packet out of the window, so everything that was stamped gets through. */
module Progress {
  import opened Protocol
  import opened RouterSpec
  import opened SenderSpec
  import opened Flow
  import opened Refinement
  import opened Link
  import GoBackN

  /** How often the sender sends its window in a run. */
  function Transmissions(events: seq<Event>): nat {
    if events == [] then 0
    else Transmissions(events[..|events| - 1]) +
         if events[|events| - 1].Transmit? || events[|events| - 1].TimeOut? then 1 else 0
  }

  /** A clean run with at most `n` transmissions leads from `s` to `t`. */
  ghost predicate ReachesWithin(s: State, t: State, n: nat)
    requires s.Valid()
  {
    exists events :: Clean(s, events) && Link.Run(s, events) == t && Transmissions(events) <= n
  }

  /** The two systems in step, with a window for which they stay so. */
  ghost predicate Joint(first: nat, g: GoBackN.Net, s: State) {
    s.Valid() && Rel(first, g, s) && GoBackN.Inv(g) && g.size <= SAFE_WINDOW
  }

  ghost predicate Silent(g: GoBackN.Net) {
    g.router.slot.Empty? && g.toRouter == g.toReceiver == g.back == g.toSender == []
  }

  lemma JointNext(s0: State, first: nat, g: GoBackN.Net, s: State, n: nat, e: Event)
    requires s0.Valid() && Joint(first, g, s) && ReachesWithin(s0, s, n) && !Forgets(s, e)
    ensures Joint(first, GoBackN.Next(g, e), Next(s, e))
    ensures ReachesWithin(s0, Next(s, e), if e.Transmit? || e.TimeOut? then n + 1 else n)
  {
    hide Rel, GoBackN.Inv, Forgets, GoBackN.Next, Next;
    NextRel(first, g, s, e);
    GoBackN.NextKeeps(g, e);
    SizeKept(g, e);
    var events :| Clean(s0, events) && Link.Run(s0, events) == s && Transmissions(events) <= n;
    assert (events + [e])[..|events|] == events;
    assert Clean(s0, events + [e]) && Link.Run(s0, events + [e]) == Next(s, e);
    assert Transmissions(events + [e]) <= if e.Transmit? || e.TimeOut? then n + 1 else n;
  }

  /** A reply for a packet in the window is found there, so it is not the case of line 506. */
  lemma LiveReplyIsFound(first: nat, g: GoBackN.Net, s: State)
    requires Joint(first, g, s) && g.toSender != [] && g.base < g.toSender[0].num
    ensures !Forgets(s, TakeReply)
  {
    hide LegsRel, Flows;
    var m := g.toSender[0];
    assert m in g.toSender;
    NextReplyBound(g);
    WiresTailOf(first, g, s);
    FindReply(first, g, s.tx.view, m);
    Low5Sum(first + m.num, -1);
  }

  lemma WiresTailOf(first: nat, g: GoBackN.Net, s: State)
    requires Rel(first, g, s) && g.toSender != []
    ensures s.toSender != [] && s.toSender[0] == Wire(first, g.stamped, g.toSender[0])
  {
  }

  /** Every transmission and every retransmission, the last one too, begins with the base packet. */
  lemma BaseGoesFirst(g: GoBackN.Net)
    requires GoBackN.CoreInv(g) && g.Count() > 0 && g.phase != Failed
    ensures var e := if g.phase == Idle then Transmit else TimeOut;
            var g', n := GoBackN.Next(g, e), |g.toRouter|;
            && g' == g.(marks := {}, phase := g'.phase, waitForAck := g'.waitForAck, retry := g'.retry,
                        toRouter := g'.toRouter)
            && g'.retry == (if g.phase == Idle then RETRY_LIMIT else g.retry - 1)
            && g'.phase == (if g.phase == Waiting && g.retry == 1 then Failed else Waiting)
            && |g'.toRouter| > n && g'.toRouter[..n] == g.toRouter && g'.toRouter[n] == Msg(Request, g.base, g.Top())
  {
    assert g.Burst()[0] == g.Copy(0) && g.Resend()[0] == g.Copy(0);
  }

  /** One round: the sender sends its window, or sends it again after a timeout; the first frame gets through
      to the receiver, and so does the reply to it; the sender takes the reply. */
  function Exchanged(s: State): (t: State)
    requires s.Valid()
    ensures t.Valid()
  {
    var s1 := Next(s, if s.tx.phase == Idle then Transmit else TimeOut);
    var s2 := Next(Next(s1, RouteData(false, false)), Deliver);
    Next(Next(s2, RouteReply(false, false)), TakeReply)
  }

  /** The router drops all that is left of what the sender sent. */
  function Dropped(s: State): (t: State)
    requires s.Valid()
    ensures t.Valid()
    decreases |s.toRouter|
  {
    if s.toRouter == [] then s else Dropped(Next(s, RouteData(false, true)))
  }

  /** `k` rounds in which no more than the first frame and the reply to it get through. */
  function Rounds(s: State, k: nat): (t: State)
    requires s.Valid()
    ensures t.Valid()
    decreases k
  {
    if k == 0 then s else Rounds(Dropped(Exchanged(s)), k - 1)
  }

  ghost predicate Clear(g: GoBackN.Net) {
    g.router.slot.Empty? && g.toReceiver == g.back == g.toSender == []
  }

  /** The base packet is accepted, or it was before: either way the reply counts beyond the base. */
  lemma BaseIsAnswered(g: GoBackN.Net)
    requires GoBackN.CoreInv(g) && g.Count() > 0 && Clear(g)
    requires g.toRouter != [] && g.toRouter[0] == Msg(Request, g.base, g.Top())
    ensures var g' :=
              GoBackN.Next(GoBackN.Next(GoBackN.Next(g, RouteData(false, false)), Deliver), RouteReply(false, false));
            && |g'.toSender| == 1 && g.base < g'.toSender[0].num
            && (g'.toSender[0].kind == Ack ==> g'.toSender[0].num == g.base + 1)
            && g' == g.(expected := g'.expected, router := g'.router, toRouter := g.toRouter[1..],
                        toSender := g'.toSender)
            && g'.router.slot.Empty? && GoBackN.CoreInv(g') && ReplyFits(g', g'.toSender[0])
  {
    var g1 := GoBackN.Next(g, RouteData(false, false));
    assert g1.toReceiver == [g.toRouter[0]];
    var g2 := GoBackN.Next(g1, Deliver);
    assert g2.toReceiver == [] && |g2.back| == 1;
    var g3 := GoBackN.Next(g2, RouteReply(false, false));
    assert g3.back == [] && g3.toSender == [g2.back[0]];
  }

  ghost predicate ReplyFits(g: GoBackN.Net, m: Msg) {
    GoBackN.ReplyOk(g, m) && m.kind != Sack
  }

  /** That reply takes the base packet, and perhaps more, out of the window. */
  lemma ReplyRemoves(g: GoBackN.Net)
    requires GoBackN.CoreInv(g) && g.phase == Waiting && g.marks == {} && |g.toSender| == 1
    requires ReplyFits(g, g.toSender[0]) && g.base < g.toSender[0].num
    requires g.toSender[0].kind == Ack ==> g.toSender[0].num == g.base + 1
    ensures var g' := GoBackN.Next(g, TakeReply);
            && g.base < g'.base <= g.Top() && g'.toSender == [] && g'.phase != Failed
            && g' == g.(base := g'.base, high := g'.high, marks := g'.marks, slot0 := g'.slot0, phase := g'.phase,
                        waitForAck := g'.waitForAck, toSender := [])
  {
  }

  /** Frames still in front of the router are lost. */
  lemma {:induction false} DropRest(s0: State, first: nat, g: GoBackN.Net, s: State, n: nat)
    returns (g': GoBackN.Net, s': State)
    requires s0.Valid() && Joint(first, g, s) && ReachesWithin(s0, s, n) && g.router.slot.Empty?
    ensures s.Valid() && s' == Dropped(s) && Joint(first, g', s') && ReachesWithin(s0, s', n)
    ensures g' == g.(router := g'.router, toRouter := []) && g'.router.slot.Empty?
    decreases |g.toRouter|
  {
    hide Joint, ReachesWithin;
    g', s' := g, s;
    SameLeg(first, g, s);
    if g.toRouter != [] {
      var e := RouteData(false, true);
      StepJoint(s0, first, g, s, n, e);
      g', s' := DropRest(s0, first, GoBackN.Next(g, e), Next(s, e), n);
    }
  }

  lemma SameLeg(first: nat, g: GoBackN.Net, s: State)
    requires Joint(first, g, s)
    ensures s.Valid() && |s.toRouter| == |g.toRouter| && s.tx.phase == g.phase
  {
    SameLengths(first, g, s);
  }

  /** JointNext for the events that are no TakeReply. */
  lemma StepJoint(s0: State, first: nat, g: GoBackN.Net, s: State, n: nat, e: Event)
    requires s0.Valid() && Joint(first, g, s) && ReachesWithin(s0, s, n) && e != TakeReply
    ensures s.Valid() && Joint(first, GoBackN.Next(g, e), Next(s, e))
    ensures ReachesWithin(s0, Next(s, e), if e.Transmit? || e.TimeOut? then n + 1 else n)
  {
    hide GoBackN.Next, Next;
    JointNext(s0, first, g, s, n, e);
  }

  lemma CoreOf(first: nat, g: GoBackN.Net, s: State)
    requires Joint(first, g, s)
    ensures s.Valid() && GoBackN.CoreInv(g) && s.stamped == g.stamped && s.tx.view.count == g.Count()
    ensures g.size <= SAFE_WINDOW && g.Count() <= g.size && s.accepted == g.Accepted()
  {
    assert WindowRel(first, g, s.tx.view);
  }

  /** When nothing is under way, a round is clean and takes at least one packet out of the window. */
  lemma Round(s0: State, first: nat, g: GoBackN.Net, s: State, n: nat) returns (g': GoBackN.Net, s': State)
    requires s0.Valid() && Joint(first, g, s) && ReachesWithin(s0, s, n) && Silent(g) && g.Count() > 0
    requires g.phase == Idle || (g.phase == Waiting && g.retry > 1)
    ensures s.Valid() && s' == Dropped(Exchanged(s)) && Joint(first, g', s') && ReachesWithin(s0, s', n + 1)
    ensures Silent(g') && g'.stamped == g.stamped && g.base < g'.base && g'.phase != Failed
    ensures s'.tx.view.count < s.tx.view.count && s'.stamped == s.stamped
    ensures g'.phase == Waiting ==> g'.retry == if g.phase == Idle then RETRY_LIMIT else g.retry - 1
  {
    hide Joint, ReachesWithin, GoBackN.Next, Next, GoBackN.CoreInv, ReplyFits;
    CoreOf(first, g, s);
    SameLeg(first, g, s);
    BaseGoesFirst(g);
    var e := if g.phase == Idle then Transmit else TimeOut;
    StepJoint(s0, first, g, s, n, e);
    var g1, s1 := GoBackN.Next(g, e), Next(s, e);
    CoreOf(first, g1, s1);
    BaseIsAnswered(g1);
    StepJoint(s0, first, g1, s1, n + 1, RouteData(false, false));
    var g2, s2 := GoBackN.Next(g1, RouteData(false, false)), Next(s1, RouteData(false, false));
    StepJoint(s0, first, g2, s2, n + 1, Deliver);
    var g3, s3 := GoBackN.Next(g2, Deliver), Next(s2, Deliver);
    StepJoint(s0, first, g3, s3, n + 1, RouteReply(false, false));
    var g4, s4 := GoBackN.Next(g3, RouteReply(false, false)), Next(s3, RouteReply(false, false));
    LiveReplyIsFound(first, g4, s4);
    JointNext(s0, first, g4, s4, n + 1, TakeReply);
    ReplyRemoves(g4);
    g', s' := DropRest(s0, first, GoBackN.Next(g4, TakeReply), Next(s4, TakeReply), n + 1);
    CoreOf(first, g', s');
  }

  lemma {:induction false} Drain(s0: State, first: nat, g: GoBackN.Net, s: State, n: nat)
    returns (g': GoBackN.Net, s': State, k: nat)
    requires s0.Valid() && Joint(first, g, s) && ReachesWithin(s0, s, n) && Silent(g) && g.phase != Failed
    requires g.phase == Waiting ==> g.retry > g.Count()
    ensures s.Valid() && s' == Rounds(s, k) && k <= s.tx.view.count
    ensures Joint(first, g', s') && g'.Count() <= 0 && g'.stamped == g.stamped
    ensures ReachesWithin(s0, s', if g.Count() <= 0 then n else n + g.Count())
    decreases g.Count()
  {
    hide Joint, ReachesWithin, GoBackN.CoreInv, Exchanged, Dropped;
    g', s', k := g, s, 0;
    CoreOf(first, g, s);
    if g.Count() > 0 {
      var g1, s1 := Round(s0, first, g, s, n);
      CoreOf(first, g1, s1);
      g', s', k := Drain(s0, first, g1, s1, n + 1);
      k := k + 1;
      Within(s0, s', n + 1 + g1.Count(), n + g.Count());
    }
  }

  lemma Within(s: State, t: State, m: nat, n: nat)
    requires s.Valid() && ReachesWithin(s, t, m) && m <= n
    ensures ReachesWithin(s, t, n)
  {
    var events :| Clean(s, events) && Link.Run(s, events) == t && Transmissions(events) <= m;
  }

  /** PROGRESS. Take any clean run after which nothing is under way and the sender still has more
      retries than packets. No more rounds than there are packets in the window are enough, although in
      each of them only the first packet and its reply get through, to empty the window, and then
      everything that was stamped has been delivered, in order. */
  lemma EverythingGetsThrough(memory: seq<Frame>, first: nat, events: seq<Event>) returns (t: State, k: nat)
    requires 2 <= |memory| <= SAFE_WINDOW + 1 && first < UINT_RANGE && Clean(Init(memory, first), events)
    requires var s := Link.Run(Init(memory, first), events);
             && s.router.slot.Empty? && s.toRouter == s.toReceiver == s.back == s.toSender == []
             && s.tx.phase != Failed && (s.tx.phase == Waiting ==> s.tx.retry > s.tx.view.count)
    ensures var s := Link.Run(Init(memory, first), events);
            && k <= s.tx.view.count && t == Rounds(s, k) && ReachesWithin(s, t, s.tx.view.count)
            && t.tx.view.count == 0 && t.stamped == s.stamped == t.accepted
  {
    hide ReachesWithin, Joint, GoBackN.Inv, Rel, Next, GoBackN.Next;
    var s, g := Link.Run(Init(memory, first), events), GoBackN.Run(GoBackN.Init(|memory| - 1), events);
    RunRel(memory, first, events);
    t, k := GetsThrough(first, g, s);
  }

  lemma GetsThrough(first: nat, g: GoBackN.Net, s: State) returns (t: State, k: nat)
    requires s.Valid() && Rel(first, g, s) && GoBackN.Inv(g) && g.size <= SAFE_WINDOW
    requires s.router.slot.Empty? && s.toRouter == s.toReceiver == s.back == s.toSender == []
    requires s.tx.phase != Failed && (s.tx.phase == Waiting ==> s.tx.retry > s.tx.view.count)
    ensures k <= s.tx.view.count && t == Rounds(s, k)
    ensures ReachesWithin(s, t, s.tx.view.count) && t.tx.view.count == 0 && t.stamped == s.stamped == t.accepted
  {
    hide ReachesWithin, GoBackN.Inv, GoBackN.CoreInv, Rel, Rounds, Silent, Joint;
    assert Joint(first, g, s) by { InStep(first, g, s); }
    Start(first, g, s);
    var g';
    g', t, k := Drain(s, first, g, s, 0);
    CoreOf(first, g, s);
    CoreOf(first, g', t);
    AllAccepted(g');
  }

  lemma InStep(first: nat, g: GoBackN.Net, s: State)
    requires s.Valid() && Rel(first, g, s) && GoBackN.Inv(g) && g.size <= SAFE_WINDOW
    ensures Joint(first, g, s)
  {
  }

  lemma Start(first: nat, g: GoBackN.Net, s: State)
    requires s.Valid() && Rel(first, g, s) && GoBackN.Inv(g)
    requires s.router.slot.Empty? && s.toRouter == s.toReceiver == s.back == s.toSender == []
    ensures Silent(g) && ReachesWithin(s, s, 0) && g.phase == s.tx.phase && g.Count() == s.tx.view.count
    ensures g.phase == Waiting ==> g.retry == s.tx.retry
  {
    hide GoBackN.DataInv, GoBackN.ReplyInv;
    assert Clean(s, []) && Link.Run(s, []) == s && Transmissions([]) == 0;
    assert WindowRel(first, g, s.tx.view);
  }

  lemma AllAccepted(g: GoBackN.Net)
    requires GoBackN.CoreInv(g) && g.Count() <= 0
    ensures g.Accepted() == g.stamped
  {
  }
}
