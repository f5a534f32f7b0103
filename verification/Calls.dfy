/** Sending calls of the library inside runs of the system: whatever happens on the legs while a call
    waits, it computes what its specification says of the datagrams and timeouts it met. */
module Calls {
  import opened Protocol
  import opened SenderSpec
  import opened Link

  /** What udp_sendtoEx gets from lib_recvfrom in a step. */
  function Took(s: State, e: Event): seq<Arrival> {
    if s.tx.phase != Waiting then []
    else if e == TimeOut then [TimedOut]
    else if e == TakeReply && s.toSender != [] then [Datagram(s.toSender[0])]
    else []
  }

  /** What the sender sends in a step. */
  function Emitted(s: State, e: Event): seq<Frame>
    requires s.Valid()
  {
    if Took(s, e) != [] then OnArrival(s.tx, Took(s, e)[0]).1
    else if e == Transmit && s.tx.phase == Idle && s.stamped != [] then Burst(s.tx.view)
    else []
  }

  function AllTook(s: State, events: seq<Event>): seq<Arrival>
    requires s.Valid()
  {
    if events == [] then []
    else AllTook(s, events[..|events| - 1]) + Took(Run(s, events[..|events| - 1]), events[|events| - 1])
  }

  function AllEmitted(s: State, events: seq<Event>): seq<Frame>
    requires s.Valid()
  {
    if events == [] then []
    else AllEmitted(s, events[..|events| - 1]) + Emitted(Run(s, events[..|events| - 1]), events[|events| - 1])
  }

  /** One step of the system, and the loop of udp_sendtoEx with what it took in front. */
  lemma StepOfExchange(s: State, e: Event, more: seq<Arrival>, sent: seq<Frame>)
    requires s.Valid() && !e.Give? && !e.Transmit?
    ensures Exchange(s.tx, Took(s, e) + more, sent) == Exchange(Next(s, e).tx, more, sent + Emitted(s, e))
  {
    hide Exchange, OnArrival;
    if Took(s, e) == [] {
      assert Took(s, e) + more == more && sent + Emitted(s, e) == sent;
    } else {
      var inbox := Took(s, e) + more;
      assert NextArrival(inbox) == Took(s, e)[0] && LaterArrivals(inbox) == more;
      ExchangeTurn(s.tx, inbox, sent);
    }
  }

  /** From any wait of udp_sendtoEx on, in any run in which the caller does nothing else: the call is where
      its specification is after the arrivals met so far, whatever is still to come. */
  lemma {:induction false} ExchangeInRun(s: State, events: seq<Event>, more: seq<Arrival>, sent: seq<Frame>)
    requires s.Valid() && forall e | e in events :: !e.Give? && !e.Transmit?
    ensures Exchange(s.tx, AllTook(s, events) + more, sent) ==
            Exchange(Run(s, events).tx, more, sent + AllEmitted(s, events))
  {
    hide Exchange, Took, Emitted, Next;
    if events == [] {
      assert AllTook(s, events) + more == more && sent + AllEmitted(s, events) == sent;
    } else {
      var before, e := events[..|events| - 1], events[|events| - 1];
      var t := Run(s, before);
      ExchangeInRun(s, before, Took(t, e) + more, sent);
      assert AllTook(s, events) + more == AllTook(s, before) + (Took(t, e) + more);
      StepOfExchange(t, e, more, sent + AllEmitted(s, before));
      assert sent + AllEmitted(s, events) == sent + AllEmitted(s, before) + Emitted(t, e);
    }
  }

  /** A CALL IS A RUN. In every run that starts with send_all_win_packets(0) and in which the caller does
      nothing else until it returns, the sender ends in the state, and has sent the frames, that
      Transmission gives for the arrivals the call met. */
  lemma TransmissionInRun(s: State, events: seq<Event>, more: seq<Arrival>, sent: seq<Frame>)
    requires s.Valid() && s.tx.phase == Idle && s.stamped != [] && forall e | e in events :: !e.Give? && !e.Transmit?
    ensures var s1 := Next(s, Transmit);
            var t := Run(s1, events);
            var out := sent + Burst(s.tx.view) + AllEmitted(s1, events);
            && Transmission(s.tx, AllTook(s1, events) + more, sent) == Exchange(t.tx, more, out)
            && (t.tx.phase != Waiting ==> Transmission(s.tx, AllTook(s1, events) + more, sent) == (t.tx, more, out))
  {
    hide AllTook, AllEmitted, Run;
    ExchangeInRun(Next(s, Transmit), events, more, sent + Burst(s.tx.view));
  }
}
