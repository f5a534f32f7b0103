/** Calls of udpsend and udprecv inside runs of the networked system: whatever else happens while they wait,
    they compute what their specification says of what came in. */
module PairCalls {
  import opened PairSpec
  import opened PairNet

  // ----- udpsend -----

  /** What udpsend gets in a step, and what it sends. */
  function Took(s: State, e: Event): seq<Arrival> {
    if s.tx.stage == Idle then []
    else if e == Quiet then [Silence]
    else if e.Answered? && e.answer in s.answers then [Heard(e.answer)]
    else []
  }

  function Emitted(s: State, e: Event): seq<Packet> {
    if s.tx.stage == Idle || Took(s, e) == [] then [] else OnArrival(s.tx, Took(s, e)[0]).1
  }

  function AllTook(s: State, events: seq<Event>): seq<Arrival> {
    if events == [] then []
    else AllTook(s, events[..|events| - 1]) + Took(Run(s, events[..|events| - 1]), events[|events| - 1])
  }

  function AllEmitted(s: State, events: seq<Event>): seq<Packet> {
    if events == [] then []
    else AllEmitted(s, events[..|events| - 1]) + Emitted(Run(s, events[..|events| - 1]), events[|events| - 1])
  }

  lemma StepOfExchange(s: State, e: Event, more: seq<Arrival>, sent: seq<Packet>)
    requires !e.Send?
    ensures Exchange(s.tx, Took(s, e) + more, sent) == Exchange(Next(s, e).tx, more, sent + Emitted(s, e))
  {
    hide Exchange, OnArrival;
    if Took(s, e) == [] {
      assert Took(s, e) + more == more && sent + Emitted(s, e) == sent;
    } else {
      var inbox := Took(s, e) + more;
      assert inbox[0] == Took(s, e)[0] && inbox[1..] == more;
      ExchangeTurn(s.tx, inbox, sent);
    }
  }

  /** From any wait of udpsend on, in any run without another call: the call is where its specification is
      after what came in so far, whatever is still to come. */
  lemma {:induction false} ExchangeInRun(s: State, events: seq<Event>, more: seq<Arrival>, sent: seq<Packet>)
    requires forall e | e in events :: !e.Send?
    ensures Exchange(s.tx, AllTook(s, events) + more, sent) ==
            Exchange(Run(s, events).tx, more, sent + AllEmitted(s, events))
  {
    hide Exchange, Took, Emitted, Next;
    if events == [] {
      assert AllTook(s, events) + more == more && sent + AllEmitted(s, events) == sent;
    } else {
      var before, e := events[..|events| - 1], events[|events| - 1];
      var t := Run(s, before);
      ExchangeInRun(s, before, Took(t, e) + more, sent);
      assert AllTook(s, events) + more == AllTook(s, before) + (Took(t, e) + more);
      StepOfExchange(t, e, more, sent + AllEmitted(s, before));
      assert sent + AllEmitted(s, events) == sent + AllEmitted(s, before) + Emitted(t, e);
    }
  }

  /** A CALL IS A RUN. In every run that starts with a call of udpsend and contains no other, the sender is
      in the state, and has sent the packets, that the method gives for what came in, and it has read all
      of that: while the call waits as well as when it has returned. */
  lemma CallInRun(s: State, block: Block, events: seq<Event>, sent: seq<Packet>)
    requires s.tx.stage == Idle && forall e | e in events :: !e.Send?
    ensures var s1 := Next(s, Send(block));
            Exchange(Call(s.tx, block), AllTook(s1, events), sent + Pair(s.tx.next, block)) ==
            (Run(s1, events).tx, [], sent + Pair(s.tx.next, block) + AllEmitted(s1, events))
  {
    hide Run, AllTook, AllEmitted;
    var s1 := Next(s, Send(block));
    ExchangeInRun(s1, events, [], sent + Pair(s.tx.next, block));
    assert AllTook(s1, events) + [] == AllTook(s1, events);
  }

  // ----- udprecv -----

  /** What udprecv gets in a step. */
  function Incoming(s: State, e: Event): seq<Datagram> {
    if e.Arrives? && e.packet in s.packets then [Got(e.packet)]
    else if e == Breaks then [Broken]
    else []
  }

  function Reaction(s: State, e: Event): (Receiver, seq<Answer>, Result) {
    if Incoming(s, e) == [] then (s.rx, [], Listening) else OnDatagram(s.rx, Incoming(s, e)[0])
  }

  function Results(s: State, e: Event): seq<Result> {
    if Reaction(s, e).2 == Listening then [] else [Reaction(s, e).2]
  }

  function AllIncoming(s: State, events: seq<Event>): seq<Datagram> {
    if events == [] then []
    else AllIncoming(s, events[..|events| - 1]) + Incoming(Run(s, events[..|events| - 1]), events[|events| - 1])
  }

  function AllAnswered(s: State, events: seq<Event>): seq<Answer> {
    if events == [] then []
    else AllAnswered(s, events[..|events| - 1]) + Reaction(Run(s, events[..|events| - 1]), events[|events| - 1]).1
  }

  function AllResults(s: State, events: seq<Event>): seq<Result> {
    if events == [] then []
    else AllResults(s, events[..|events| - 1]) + Results(Run(s, events[..|events| - 1]), events[|events| - 1])
  }

  function Prepend(results: seq<Result>, h: (Receiver, seq<Answer>, seq<Result>))
    : (Receiver, seq<Answer>, seq<Result>)
  {
    (h.0, h.1, results + h.2)
  }

  lemma HearFirst(r: Receiver, d: Datagram, more: seq<Datagram>, sent: seq<Answer>)
    ensures var (r', answers, result) := OnDatagram(r, d);
            HearAll(r, [d] + more, sent) ==
            Prepend(if result == Listening then [] else [result], HearAll(r', more, sent + answers))
  {
    hide OnDatagram;
    var inbox := [d] + more;
    assert inbox[0] == d && inbox[1..] == more;
    var (r', answers, result) := OnDatagram(r, d);
    assert [] + HearAll(r', more, sent + answers).2 == HearAll(r', more, sent + answers).2;
  }

  lemma StepOfHearing(s: State, e: Event, more: seq<Datagram>, sent: seq<Answer>)
    ensures HearAll(s.rx, Incoming(s, e) + more, sent) ==
            Prepend(Results(s, e), HearAll(Next(s, e).rx, more, sent + Reaction(s, e).1))
    ensures Next(s, e).written == s.written + Returns(Results(s, e))
  {
    hide HearAll, OnDatagram, OnArrival;
    ReturnsShort();
    if Incoming(s, e) == [] {
      assert Incoming(s, e) + more == more && sent + [] == sent;
      assert [] + HearAll(s.rx, more, sent).2 == HearAll(s.rx, more, sent).2;
      assert s.written + [] == s.written;
    } else {
      HearFirst(s.rx, Incoming(s, e)[0], more, sent);
      assert s.written + [] == s.written;
    }
  }

  lemma ReturnsShort()
    ensures Returns([]) == []
    ensures forall r: Result :: Returns([r]) == if r.Returned? then [r.block] else []
  {
    forall r: Result ensures Returns([r]) == if r.Returned? then [r.block] else [] {
      assert [r][..0] == [] && Returns([r]) == Returns([]) + if r.Returned? then [r.block] else [];
    }
  }

  lemma {:induction false} HearingInRun(s: State, events: seq<Event>, more: seq<Datagram>, sent: seq<Answer>)
    ensures HearAll(s.rx, AllIncoming(s, events) + more, sent) ==
            Prepend(AllResults(s, events), HearAll(Run(s, events).rx, more, sent + AllAnswered(s, events)))
    ensures Run(s, events).written == s.written + Returns(AllResults(s, events))
  {
    hide HearAll, Incoming, Reaction, Results, Next, Returns;
    if events == [] {
      assert AllIncoming(s, events) + more == more && sent + AllAnswered(s, events) == sent;
      assert [] + HearAll(s.rx, more, sent).2 == HearAll(s.rx, more, sent).2;
      ReturnsShort();
      assert s.written + [] == s.written;
    } else {
      var before, e := events[..|events| - 1], events[|events| - 1];
      var t := Run(s, before);
      HearingInRun(s, before, Incoming(t, e) + more, sent);
      assert AllIncoming(s, events) + more == AllIncoming(s, before) + (Incoming(t, e) + more);
      StepOfHearing(t, e, more, sent + AllAnswered(s, before));
      assert sent + AllAnswered(s, events) == sent + AllAnswered(s, before) + Reaction(t, e).1;
      var h := HearAll(Next(t, e).rx, more, sent + AllAnswered(s, events));
      assert AllResults(s, before) + (Results(t, e) + h.2) == AllResults(s, events) + h.2;
      ReturnsJoin(AllResults(s, before), Results(t, e));
    }
  }

  lemma {:induction false} ReturnsJoin(xs: seq<Result>, ys: seq<Result>)
    ensures Returns(xs + ys) == Returns(xs) + Returns(ys)
  {
    if ys == [] {
      assert xs + ys == xs;
    } else {
      ReturnsJoin(xs, ys[..|ys| - 1]);
      assert (xs + ys)[..|xs + ys| - 1] == xs + ys[..|ys| - 1];
    }
  }

  /** RECEIVING IS A RUN. In every run the calls of udprecv have returned, and answered, what the method
      gives for what came in; and the blocks among these results are the blocks written. */
  lemma ReceivingInRun(block: Block, events: seq<Event>)
    ensures var s0 := Init(block);
            var s := Run(s0, events);
            && HearAll(Receiver(0, []), AllIncoming(s0, events), []) ==
               (s.rx, AllAnswered(s0, events), AllResults(s0, events))
            && s.written == Returns(AllResults(s0, events))
  {
    hide Run, AllIncoming, AllAnswered, AllResults, Returns;
    var s0 := Init(block);
    HearingInRun(s0, events, [], []);
    assert AllIncoming(s0, events) + [] == AllIncoming(s0, events);
    assert [] + AllAnswered(s0, events) == AllAnswered(s0, events);
    assert AllResults(s0, events) + [] == AllResults(s0, events);
    assert [] + Returns(AllResults(s0, events)) == Returns(AllResults(s0, events));
  }
}
