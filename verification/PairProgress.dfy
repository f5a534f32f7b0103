/** When the pair protocol moves on, and when it does not. */
module PairProgress {
  import opened PairSpec
  import opened PairNet

  /** The sender gets these answers, in order. */
  function Hears(s: State, answers: seq<Answer>): State {
    if answers == [] then s else Next(Hears(s, answers[..|answers| - 1]), Answered(answers[|answers| - 1]))
  }

  /** A round in which nothing is lost, repeated or reordered: a timeout, the two packets it sends, and
      then all the answers the receiver gives to them. */
  function Round(s: State): State {
    var pair := Pair(s.tx.next, s.tx.block);
    var s1 := Next(s, Quiet);
    var s2 := Next(s1, Arrives(pair[0]));
    var s3 := Next(s2, Arrives(pair[1]));
    Hears(s3, OnDatagram(s1.rx, Got(pair[0])).1 + OnDatagram(s2.rx, Got(pair[1])).1)
  }

  function Rounds(s: State, n: nat): State {
    if n == 0 then s else Round(Rounds(s, n - 1))
  }

  lemma HearsTwo(s: State, a: Answer, b: Answer)
    ensures Hears(s, [a, b]) == Next(Next(s, Answered(a)), Answered(b))
  {
    assert [a, b][..1] == [a] && [a][..0] == [];
    assert Hears(s, [a]) == Next(Hears(s, []), Answered(a));
  }

  /** udprecv is about to read the first packet of a pair: the pair is taken, or answered again. */
  lemma AlignedRound(s: State)
    requires Inv(s) && s.tx.stage == First && s.rx.first == []
    ensures Round(s).tx.stage == Second && Round(s).tx.next == s.tx.next && Round(s).given == s.given
    ensures Round(s).rx.first == [] && Inv(Round(s))
  {
    hide PacketOk, Inv, Next, Hears;
    var pair := Pair(s.tx.next, s.tx.block);
    var answers := Answers(true, pair[0], pair[1]);
    var s1 := Next(s, Quiet);
    NextKeeps(s, Quiet);
    Resent(s);
    var s2 := Next(s1, Arrives(pair[0]));
    NextKeeps(s1, Arrives(pair[0]));
    var s3 := Next(s2, Arrives(pair[1]));
    NextKeeps(s2, Arrives(pair[1]));
    PairAnswered(s1);
    var s4 := Next(s3, Answered(answers[0]));
    NextKeeps(s3, Answered(answers[0]));
    NextKeeps(s4, Answered(answers[1]));
    BothHeard(s3);
    HearsTwo(s3, answers[0], answers[1]);
    assert [] + answers == answers;
  }

  /** A timeout in the first loop changes nothing but the number of times the packets were sent. */
  lemma Resent(s: State)
    requires Inv(s) && s.tx.stage == First
    ensures Next(s, Quiet) == s.(tx := s.tx.(resent := s.tx.resent + 1))
  {
    hide PacketOk;
    assert s.packets + Elements(Pair(s.tx.next, s.tx.block)) == s.packets;
  }

  lemma PairAnswered(s: State)
    requires Inv(s) && s.tx.stage == First && s.rx.first == []
    ensures var pair := Pair(s.tx.next, s.tx.block);
            var s2 := Next(s, Arrives(pair[0]));
            var s3 := Next(s2, Arrives(pair[1]));
            && OnDatagram(s.rx, Got(pair[0])).1 == []
            && OnDatagram(s2.rx, Got(pair[1])).1 == Answers(true, pair[0], pair[1])
            && s3.tx == s.tx && s3.given == s.given && s3.rx.first == []
            && Answers(true, pair[0], pair[1])[0] in s3.answers && Answers(true, pair[0], pair[1])[1] in s3.answers
  {
    hide PacketOk;
    var pair := Pair(s.tx.next, s.tx.block);
    assert pair[0] in pair && pair[1] in pair;
  }

  lemma BothHeard(s: State)
    requires s.tx.stage == First && Answer(true, s.tx.next) in s.answers && Answer(true, s.tx.next + 1) in s.answers
    ensures var t := Next(Next(s, Answered(Answer(true, s.tx.next))), Answered(Answer(true, s.tx.next + 1)));
            t == s.(tx := t.tx) && t.tx.stage == Second && t.tx.next == s.tx.next
  {
    assert s.packets + Elements([]) == s.packets;
  }

  /** udprecv already holds a packet: it is paired with the first one of this round, the pair is refused,
      and the second one is left over for the next round. */
  lemma CrossedRound(s: State)
    requires Inv(s) && s.tx.stage == First && s.rx.first != []
    ensures Round(s).tx == s.tx.(resent := s.tx.resent + 1)
            && Round(s).given == s.given && Round(s).written == s.written
    ensures Round(s).rx.first == [Got(Pair(s.tx.next, s.tx.block)[1])] && Inv(Round(s))
  {
    hide PacketOk, Inv, Next, Hears;
    var pair := Pair(s.tx.next, s.tx.block);
    var s1 := Next(s, Quiet);
    NextKeeps(s, Quiet);
    Resent(s);
    var s2 := Next(s1, Arrives(pair[0]));
    NextKeeps(s1, Arrives(pair[0]));
    var s3 := Next(s2, Arrives(pair[1]));
    NextKeeps(s2, Arrives(pair[1]));
    PairCrossed(s1);
    if s.rx.first[0].Got? {
      var answers := Answers(false, s.rx.first[0].packet, pair[0]);
      NextKeeps(s3, Answered(answers[0]));
      NextKeeps(Next(s3, Answered(answers[0])), Answered(answers[1]));
      BothRefused(s3, answers[0], answers[1]);
      HearsTwo(s3, answers[0], answers[1]);
      assert answers + [] == answers;
    } else {
      assert OnDatagram(s1.rx, Got(pair[0])).1 + OnDatagram(s2.rx, Got(pair[1])).1 == [];
      HearsNone(s3);
    }
  }

  lemma HearsNone(s: State)
    ensures Hears(s, []) == s
  {
  }

  lemma PairCrossed(s: State)
    requires Inv(s) && s.tx.stage == First && s.rx.first != []
    ensures var pair, x := Pair(s.tx.next, s.tx.block), s.rx.first[0];
            var s2 := Next(s, Arrives(pair[0]));
            var s3 := Next(s2, Arrives(pair[1]));
            && OnDatagram(s.rx, Got(pair[0])).1 == (if x.Got? then Answers(false, x.packet, pair[0]) else [])
            && OnDatagram(s2.rx, Got(pair[1])).1 == []
            && s3.tx == s.tx && s3.given == s.given && s3.written == s.written && s3.rx.first == [Got(pair[1])]
            && !(s.tx.slide1 && s.tx.slide2)
            && (x.Got? ==> Answer(false, x.packet.seqNo) in s3.answers && Answer(false, s.tx.next) in s3.answers)
  {
    hide PacketOk;
    var pair := Pair(s.tx.next, s.tx.block);
    assert pair[0] in pair && pair[1] in pair;
  }

  lemma BothRefused(s: State, a: Answer, b: Answer)
    requires s.tx.stage == First && a in s.answers && b in s.answers
             && !a.ack && !b.ack && !(s.tx.slide1 && s.tx.slide2)
    ensures Next(Next(s, Answered(a)), Answered(b)) == s
  {
    assert s.packets + Elements([]) == s.packets;
  }

  /** ONE PERFECT ROUND ends the first loop of udpsend exactly when udprecv is not holding a packet. */
  lemma RoundCompletes(block: Block, events: seq<Event>)
    requires Run(Init(block), events).tx.stage == First
    ensures var s := Run(Init(block), events);
            Round(s).tx.stage == Second <==> s.rx.first == []
  {
    hide Round, Inv;
    RunKeeps(block, events);
    var s := Run(Init(block), events);
    if s.rx.first == [] {
      AlignedRound(s);
    } else {
      CrossedRound(s);
    }
  }

  /** So a udprecv that holds a packet when a round begins never gets a block again: any number of
      rounds in which the network is perfect leaves both sides where they were. */
  lemma {:induction false} CrossedForever(s: State, n: nat)
    requires Inv(s) && s.tx.stage == First && s.rx.first != []
    ensures var t := Rounds(s, n);
            Inv(t) && t.written == s.written && t.given == s.given && t.tx.stage == First && t.rx.first != []
  {
    hide Inv, Round;
    if n > 0 {
      CrossedForever(s, n - 1);
      CrossedRound(Rounds(s, n - 1));
    }
  }

  /** ONE LOST PACKET stalls the transfer: the first packet of the first block is lost, nothing is lost
      ever after, and the block is never returned. */
  lemma OneLossStalls(block: Block, n: nat)
    ensures var s := Run(Init(block), [Send(block), Arrives(Pair(0, block)[1])]);
            Rounds(s, n).written == [] && Rounds(s, n).given == [block] && Rounds(s, n).tx.stage == First
  {
    hide Rounds, Round, Inv;
    var events := [Send(block), Arrives(Pair(0, block)[1])];
    assert events[..1] == [Send(block)] && [Send(block)][..0] == [];
    assert Run(Init(block), [Send(block)]) == Next(Run(Init(block), []), Send(block));
    assert Pair(0, block)[1] in Elements(Pair(0, block));
    RunKeeps(block, events);
    CrossedForever(Run(Init(block), events), n);
  }

  // ----- no dead end -----

  ghost predicate Reaches(s: State, t: State) {
    exists events :: Run(s, events) == t
  }

  lemma ReachesSelf(s: State)
    ensures Reaches(s, s)
  {
    assert Run(s, []) == s;
  }

  lemma Reached(s: State, t: State, e: Event)
    requires Reaches(s, t) && Inv(t)
    ensures Reaches(s, Next(t, e)) && Inv(Next(t, e))
  {
    hide Next, Inv;
    var events :| Run(s, events) == t;
    assert (events + [e])[..|events|] == events;
    assert Run(s, events + [e]) == Next(t, e);
    NextKeeps(t, e);
  }

  /** NO DEAD END. From every state of every run the network can still let the call of udpsend finish,
      and then every block given has been returned: losing one packet more realigns the receiver. */
  lemma CanAlwaysFinish(block: Block, events: seq<Event>) returns (t: State)
    ensures var s := Run(Init(block), events);
            Reaches(s, t) && t.tx.stage == Idle && t.given == s.given == t.written
  {
    hide Reaches, Round, Next, PacketOk;
    RunKeeps(block, events);
    var s := Run(Init(block), events);
    ReachesSelf(s);
    t := ToFirst(s, s);
    if t.tx.stage == First {
      t := Align(s, t);
      t := ReachRound(s, t);
      Leaves(t);
      Reached(s, t, Quiet);
      t := Next(t, Quiet);
    }
  }

  lemma Leaves(s: State)
    requires s.tx.stage in {Second, SecondRest, FirstRest}
    ensures var t := Next(s, Quiet);
            t.given == s.given && t.tx.stage == match s.tx.stage
                                                case Second => Idle
                                                case SecondRest => Second
                                                case _ => First
  {
  }

  /** Timeouts end the call, or lead back to the top of the first loop. */
  lemma ToFirst(s0: State, s: State) returns (t: State)
    requires Reaches(s0, s) && Inv(s)
    ensures Reaches(s0, t) && Inv(t) && t.tx.stage in {Idle, First} && t.given == s.given
  {
    hide Reaches, Inv, Next;
    t := s;
    if t.tx.stage == SecondRest {
      Leaves(t);
      Reached(s0, t, Quiet);
      t := Next(t, Quiet);
    }
    if t.tx.stage in {FirstRest, Second} {
      Leaves(t);
      Reached(s0, t, Quiet);
      t := Next(t, Quiet);
    }
  }

  /** A receiver that holds a packet gets the second one of the pair, as if the first had been lost. */
  lemma Align(s0: State, s: State) returns (t: State)
    requires Reaches(s0, s) && Inv(s) && s.tx.stage == First
    ensures Reaches(s0, t) && Inv(t) && t.tx == s.tx && t.given == s.given && t.rx.first == []
  {
    hide Reaches, PacketOk;
    t := s;
    if s.rx.first != [] {
      var p := Pair(s.tx.next, s.tx.block)[1];
      assert p in Pair(s.tx.next, s.tx.block);
      Reached(s0, s, Arrives(p));
      t := Next(s, Arrives(p));
    }
  }

  lemma ReachRound(s0: State, s: State) returns (t: State)
    requires Reaches(s0, s) && Inv(s) && s.tx.stage == First && s.rx.first == []
    ensures Reaches(s0, t) && Inv(t) && t.tx.stage == Second && t.given == s.given
  {
    hide Reaches, Inv, Next, Hears;
    var pair := Pair(s.tx.next, s.tx.block);
    var answers := Answers(true, pair[0], pair[1]);
    AlignedRound(s);
    Reached(s0, s, Quiet);
    var s1 := Next(s, Quiet);
    Resent(s);
    Reached(s0, s1, Arrives(pair[0]));
    var s2 := Next(s1, Arrives(pair[0]));
    Reached(s0, s2, Arrives(pair[1]));
    var s3 := Next(s2, Arrives(pair[1]));
    PairAnswered(s1);
    Reached(s0, s3, Answered(answers[0]));
    var s4 := Next(s3, Answered(answers[0]));
    Reached(s0, s4, Answered(answers[1]));
    t := Next(s4, Answered(answers[1]));
    BothHeard(s3);
  }
}
