/** What the refinement says about the program itself, in every clean run. */
module Safety {
  import opened Protocol
  import opened SenderSpec
  import opened Flow
  import opened Refinement
  import opened Link
  import RouterSpec
  import GoBackN

  /** END TO END. The payloads the receiver has passed on are a prefix of those the sender stamped:
      nothing is lost, repeated, reordered or mixed up, whatever the router does. */
  lemma DeliveredIsPrefix(memory: seq<Frame>, first: nat, events: seq<Event>)
    requires 2 <= |memory| <= SAFE_WINDOW + 1 && first < UINT_RANGE && Clean(Init(memory, first), events)
    ensures var s := Run(Init(memory, first), events);
            s.accepted <= s.stamped
  {
    hide GoBackN.DataInv, GoBackN.ReplyInv, LegsRel, SenderRel;
    RunRel(memory, first, events);
  }

  /** Only packets the receiver has accepted leave the window, and only accepted packets are tagged:
      B <= R <= B + winBufPos, with B the number of packets that left and R of those accepted. */
  lemma NothingForgotten(memory: seq<Frame>, first: nat, events: seq<Event>)
    requires 2 <= |memory| <= SAFE_WINDOW + 1 && first < UINT_RANGE && Clean(Init(memory, first), events)
    ensures var s := Run(Init(memory, first), events);
            && Departed(s) <= |s.accepted| <= Departed(s) + s.tx.view.count
            && (s.tx.phase == Waiting ==>
                  forall k: nat | k < s.tx.view.count && s.tx.view.acked[k] :: Departed(s) + k < |s.accepted|)
  {
    hide GoBackN.DataInv, GoBackN.ReplyInv, LegsRel;
    RunRel(memory, first, events);
    var g, s := GoBackN.Run(GoBackN.Init(|memory| - 1), events), Run(Init(memory, first), events);
    assert WindowRel(first, g, s.tx.view);
  }

  /** A message toward `dest`, behind the router, held by it, or in front of it. */
  ghost predicate InFlight(g: GoBackN.Net, dest: RouterSpec.Peer, m: Msg) {
    if dest == RouterSpec.Peer2 then m in g.toReceiver || m in RouterSpec.HeldFor(g.router, dest) + g.toRouter
    else m in g.toSender || m in RouterSpec.HeldFor(g.router, dest) + g.back
  }

  /** How far a message can lag behind or run ahead, for a window of any size: a data packet is at most
      size + 1 behind the receiver and less than size ahead of it; a reply counts at most size packets
      fewer than have left the window and none that were not stamped. */
  lemma InFlightBounds(size: nat, events: seq<Event>, m: Msg)
    requires 1 <= size
    ensures var g := GoBackN.Run(GoBackN.Init(size), events);
            && (InFlight(g, RouterSpec.Peer2, m) && m.kind == Request ==>
                  g.expected - size - 1 <= m.num < g.expected + size)
            && (InFlight(g, RouterSpec.Peer1, m) ==> g.base - size <= m.num <= g.Top())
  {
    hide GoBackN.Next, Ordered;
    GoBackN.RunKeeps(size, events);
    SizeStays(size, events);
  }

  lemma {:induction false} SizeStays(size: nat, events: seq<Event>)
    ensures GoBackN.Run(GoBackN.Init(size), events).size == size
  {
    hide GoBackN.Next;
    if events != [] {
      SizeStays(size, events[..|events| - 1]);
      SizeKept(GoBackN.Run(GoBackN.Init(size), events[..|events| - 1]), events[|events| - 1]);
    }
  }

  /** The one way to forget: after a clean run, a step takes packets the receiver has not accepted out
      of the window exactly when it takes the branch at line 506 while such packets exist. */
  lemma ForgetsExactly(memory: seq<Frame>, first: nat, events: seq<Event>, e: Event)
    requires 2 <= |memory| <= SAFE_WINDOW + 1 && first < UINT_RANGE && Clean(Init(memory, first), events)
    ensures var s := Run(Init(memory, first), events);
            Departed(Next(s, e)) <= |Next(s, e).accepted| <==> !(Forgets(s, e) && |s.accepted| < |s.stamped|)
  {
    hide Next;
    var s := Run(Init(memory, first), events);
    NothingForgotten(memory, first, events);
    if Forgets(s, e) {
      ForgetStep(s, e);
    } else {
      assert (events + [e])[..|events|] == events;
      NothingForgotten(memory, first, events + [e]);
    }
  }

  lemma ForgetStep(s: State, e: Event)
    requires s.Valid() && Forgets(s, e)
    ensures Departed(Next(s, e)) == |s.stamped| && Next(s, e).accepted == s.accepted
  {
  }
}
