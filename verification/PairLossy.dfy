/** The pair protocol over a network that delivers each copy at most once and may lose any: what was lost
    has to be sent again. */
module PairLossy {
  import opened PairSpec
  import opened PairNet
  import opened PairCalls
  import PairProgress

  /** `packets`, `answers`: the copies under way. */
  datatype Lossy = Lossy(net: State, packets: multiset<Packet>, answers: multiset<Answer>)

  datatype Move = Step(e: Event) | LosePacket(packet: Packet) | LoseAnswer(answer: Answer)

  /** What udpsend puts on the socket in a step: its two packets when it is called, and what it sends while
      it waits. */
  function Sends(s: State, e: Event): seq<Packet> {
    if e.Send? then (if s.tx.stage == Idle then Pair(s.tx.next, e.block) else []) else Emitted(s, e)
  }

  function Moved(l: Lossy, m: Move): Lossy {
    match m
    case LosePacket(p) => l.(packets := l.packets - multiset{p})
    case LoseAnswer(a) => l.(answers := l.answers - multiset{a})
    case Step(e) =>
      if e.Arrives? && e.packet !in l.packets then l
      else if e.Answered? && (e.answer !in l.answers || l.net.tx.stage == Idle) then l
      else
        Lossy(Next(l.net, e),
              (if e.Arrives? then l.packets - multiset{e.packet} else l.packets) + multiset(Sends(l.net, e)),
              (if e.Answered? then l.answers - multiset{e.answer} else l.answers) + multiset(Reaction(l.net, e).1))
  }

  function Start(block: Block): Lossy {
    Lossy(Init(block), multiset{}, multiset{})
  }

  function Moves(l: Lossy, moves: seq<Move>): Lossy {
    if moves == [] then l else Moved(Moves(l, moves[..|moves| - 1]), moves[|moves| - 1])
  }

  /** What is under way was sent. */
  ghost predicate Genuine(l: Lossy) {
    && Inv(l.net) && (forall p | p in l.packets :: p in l.net.packets)
    && (forall a | a in l.answers :: a in l.net.answers)
  }

  lemma SendsKept(s: State, e: Event)
    ensures forall p | p in Sends(s, e) :: p in Next(s, e).packets
    ensures forall a | a in Reaction(s, e).1 :: a in Next(s, e).answers
    ensures s.packets <= Next(s, e).packets && s.answers <= Next(s, e).answers
  {
    hide OnArrival, OnDatagram;
  }

  lemma MovedKeeps(l: Lossy, m: Move)
    requires Genuine(l)
    ensures Genuine(Moved(l, m))
  {
    hide Inv, Next, Sends, Reaction;
    if m.Step? {
      NextKeeps(l.net, m.e);
      SendsKept(l.net, m.e);
    }
  }

  lemma {:induction false} MovesKeep(block: Block, moves: seq<Move>)
    ensures Genuine(Moves(Start(block), moves))
  {
    if moves != [] {
      hide Genuine, Moved;
      MovesKeep(block, moves[..|moves| - 1]);
      MovedKeeps(Moves(Start(block), moves[..|moves| - 1]), moves[|moves| - 1]);
    }
  }

  /** SAFETY carries over: blocks returned are a prefix of blocks given, and all of them when no call of
      udpsend is under way. */
  lemma LossySafe(block: Block, moves: seq<Move>)
    ensures var s := Moves(Start(block), moves).net;
            s.written <= s.given && (s.tx.stage == Idle ==> s.written == s.given)
  {
    hide PacketOk;
    MovesKeep(block, moves);
  }

  // ----- nothing gets on without a timeout -----

  ghost predicate Empty(l: Lossy) {
    l.packets == multiset{} && l.answers == multiset{}
  }

  predicate Resends(m: Move) {
    m == Step(Quiet)
  }

  /** Once every copy is lost and a call waits in its first loop, only a timeout of the sender can change
      anything for the sender, the blocks returned or what is under way. */
  lemma {:induction false} StuckWithoutTimeout(l: Lossy, moves: seq<Move>)
    requires Empty(l) && l.net.tx.stage == First && forall m | m in moves :: !Resends(m)
    ensures var t := Moves(l, moves);
            Empty(t) && t.net.tx == l.net.tx && t.net.written == l.net.written && t.net.given == l.net.given
  {
    if moves != [] {
      var before := moves[..|moves| - 1];
      StuckWithoutTimeout(l, before);
      NothingMoves(Moves(l, before), moves[|moves| - 1]);
    }
  }

  lemma NothingMoves(l: Lossy, m: Move)
    requires Empty(l) && l.net.tx.stage == First && !Resends(m)
    ensures var t := Moved(l, m);
            Empty(t) && t.net.tx == l.net.tx && t.net.written == l.net.written && t.net.given == l.net.given
  {
  }

  // ----- but with timeouts every call can be finished -----

  ghost predicate Reaches(l: Lossy, t: Lossy) {
    exists moves :: Moves(l, moves) == t
  }

  lemma ReachesSelf(l: Lossy)
    ensures Reaches(l, l)
  {
    assert Moves(l, []) == l;
  }

  lemma Reached(l: Lossy, t: Lossy, m: Move)
    requires Reaches(l, t) && Genuine(t)
    ensures Reaches(l, Moved(t, m)) && Genuine(Moved(t, m))
  {
    hide Moved, Genuine;
    var moves :| Moves(l, moves) == t;
    assert (moves + [m])[..|moves|] == moves;
    assert Moves(l, moves + [m]) == Moved(t, m);
    MovedKeeps(t, m);
  }

  /** A timeout in the first loop puts one new copy of each packet under way. */
  lemma CopiesUnderWay(l: Lossy)
    requires Genuine(l) && l.net.tx.stage == First
    ensures var t, s := Moved(l, Step(Quiet)), l.net;
            && t.net == s.(tx := s.tx.(resent := s.tx.resent + 1))
            && Packet(s.tx.next, s.tx.block[..130]) in t.packets
            && Packet(s.tx.next + 1, s.tx.block[130..]) in t.packets
            && t.packets == l.packets +
                 multiset([Packet(s.tx.next, s.tx.block[..130]), Packet(s.tx.next + 1, s.tx.block[130..])])
  {
    PairProgress.Resent(l.net);
  }

  /** A copy arrives: it is under way no longer, and what udprecv answers is. */
  lemma ArriveEffect(t: Lossy, p: Packet)
    requires Genuine(t) && p in t.packets
    ensures Moved(t, Step(Arrives(p))) ==
            Lossy(Next(t.net, Arrives(p)), t.packets - multiset{p},
                  t.answers + multiset(OnDatagram(t.net.rx, Got(p)).1))
  {
    hide Inv, Next, OnDatagram;
  }

  lemma HeardEffect(t: Lossy, a: Answer)
    requires Genuine(t) && a in t.answers && t.net.tx.stage != Idle
    ensures var u := Moved(t, Step(Answered(a)));
            u.net == Next(t.net, Answered(a)) && u.answers == t.answers - multiset{a}
  {
    hide Inv, Next, Emitted;
  }

  /** The two copies arrive, in order, at a receiver that holds nothing. */
  lemma BothArrive(l: Lossy, t: Lossy) returns (u: Lossy)
    requires Reaches(l, t) && Genuine(t) && t.net.tx.stage == First && t.net.rx.first == []
    requires var pair := Pair(t.net.tx.next, t.net.tx.block);
             pair[0] in t.packets && pair[1] in t.packets
    ensures Reaches(l, u) && Genuine(u) && u.net.tx == t.net.tx && u.net.given == t.net.given && u.net.rx.first == []
    ensures Answer(true, t.net.tx.next) in u.answers && Answer(true, t.net.tx.next + 1) in u.answers
  {
    hide Reaches, Genuine, Next, Moved;
    var pair := Pair(t.net.tx.next, t.net.tx.block);
    assert Inv(t.net) by { GenuineInv(t); }
    PairProgress.PairAnswered(t.net);
    ArriveEffect(t, pair[0]);
    Reached(l, t, Step(Arrives(pair[0])));
    var t1 := Moved(t, Step(Arrives(pair[0])));
    assert pair[0] != pair[1];
    ArriveEffect(t1, pair[1]);
    Reached(l, t1, Step(Arrives(pair[1])));
    u := Moved(t1, Step(Arrives(pair[1])));
    var answers := Answers(true, pair[0], pair[1]);
    assert answers[0] in multiset(answers) && answers[1] in multiset(answers);
  }

  lemma GenuineInv(t: Lossy)
    requires Genuine(t)
    ensures Inv(t.net) && (forall a | a in t.answers :: a in t.net.answers)
  {
  }

  /** From a receiver that holds nothing, a resend with its two packets and their answers ends the first
      loop. */
  lemma RoundOver(l: Lossy, t: Lossy) returns (u: Lossy)
    requires Reaches(l, t) && Genuine(t) && t.net.tx.stage == First && t.net.rx.first == []
    ensures Reaches(l, u) && Genuine(u) && u.net.tx.stage == Second && u.net.given == t.net.given
  {
    hide Reaches, Genuine, Next, Moved;
    CopiesUnderWay(t);
    Reached(l, t, Step(Quiet));
    var t3 := BothArrive(l, Moved(t, Step(Quiet)));
    var n := t3.net.tx.next;
    GenuineInv(t3);
    PairProgress.BothHeard(t3.net);
    HeardEffect(t3, Answer(true, n));
    Reached(l, t3, Step(Answered(Answer(true, n))));
    var t4 := Moved(t3, Step(Answered(Answer(true, n))));
    FirstHeard(t3.net);
    assert Answer(true, n + 1) in t4.answers;
    HeardEffect(t4, Answer(true, n + 1));
    Reached(l, t4, Step(Answered(Answer(true, n + 1))));
    u := Moved(t4, Step(Answered(Answer(true, n + 1))));
  }

  lemma FirstHeard(s: State)
    requires s.tx.stage == First && Answer(true, s.tx.next) in s.answers
    ensures Next(s, Answered(Answer(true, s.tx.next))).tx.stage == FirstRest
  {
  }

  /** A timeout of the sender, whatever it makes it send. */
  lemma QuietMoves(l: Lossy, t: Lossy) returns (u: Lossy)
    requires Reaches(l, t) && Genuine(t)
    ensures u == Moved(t, Step(Quiet)) && Reaches(l, u) && Genuine(u) && u.net == Next(t.net, Quiet)
  {
    hide Reaches, Genuine, Next;
    Reached(l, t, Step(Quiet));
    u := Moved(t, Step(Quiet));
  }

  lemma ToFirst(l: Lossy, t: Lossy) returns (u: Lossy)
    requires Reaches(l, t) && Genuine(t)
    ensures Reaches(l, u) && Genuine(u) && u.net.tx.stage in {Idle, First} && u.net.given == t.net.given
  {
    hide Reaches, Genuine, Next, Moved;
    u := t;
    if u.net.tx.stage == SecondRest {
      PairProgress.Leaves(u.net);
      u := QuietMoves(l, u);
    }
    if u.net.tx.stage in {FirstRest, Second} {
      PairProgress.Leaves(u.net);
      u := QuietMoves(l, u);
    }
  }

  /** A receiver that holds a packet gets a resent second one, as if the first had been lost. */
  lemma Align(l: Lossy, t: Lossy) returns (u: Lossy)
    requires Reaches(l, t) && Genuine(t) && t.net.tx.stage == First
    ensures Reaches(l, u) && Genuine(u) && u.net.tx.stage == First && u.net.given == t.net.given && u.net.rx.first == []
  {
    hide Reaches, Genuine, Next, Moved;
    u := t;
    if t.net.rx.first != [] {
      CopiesUnderWay(t);
      u := QuietMoves(l, t);
      var p := Pair(u.net.tx.next, u.net.tx.block)[1];
      ArriveEffect(u, p);
      GenuineInv(u);
      SecondArrives(u.net, p);
      Reached(l, u, Step(Arrives(p)));
      u := Moved(u, Step(Arrives(p)));
    }
  }

  lemma SecondArrives(s: State, p: Packet)
    requires Inv(s) && s.rx.first != []
    ensures var t := Next(s, Arrives(p));
            t.tx == s.tx && t.given == s.given && (p in s.packets ==> t.rx.first == [])
  {
    hide PacketOk;
  }

  /** RECOVERY. From every state of every run, even after all copies under way are lost, the call of udpsend
      can still finish, with every block returned; with nothing but what it sends again. */
  lemma LossyCanFinish(block: Block, moves: seq<Move>) returns (t: Lossy)
    ensures var l := Moves(Start(block), moves);
            var lost := Lossy(l.net, multiset{}, multiset{});
            Reaches(lost, t) && t.net.tx.stage == Idle && t.net.given == l.net.given == t.net.written
  {
    hide Reaches, Next, Moved;
    MovesKeep(block, moves);
    var l := Moves(Start(block), moves);
    var lost := Lossy(l.net, multiset{}, multiset{});
    ReachesSelf(lost);
    t := ToFirst(lost, lost);
    if t.net.tx.stage == First {
      t := Align(lost, t);
      t := RoundOver(lost, t);
      PairProgress.Leaves(t.net);
      t := QuietMoves(lost, t);
    }
    AllWritten(t);
  }

  lemma AllWritten(l: Lossy)
    requires Genuine(l) && l.net.tx.stage == Idle
    ensures l.net.written == l.net.given
  {
    hide PacketOk;
  }
}
