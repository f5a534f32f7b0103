/** What a call of udpsend makes of the things that come in, read two at a time, and how often it puts its
    packets on the socket. */
module PairSending {
  import opened PairSpec

  /** The two halves of the block under their numbers, `k` times. */
  function Copies(n: int, block: Block, k: nat): seq<Packet> {
    if k == 0 then []
    else Copies(n, block, k - 1) + [Packet(n, block[..130]), Packet(n + 1, block[130..])]
  }

  /** Whether the call is over, what it has not read, and how many timeouts made it send again. */
  datatype Course = Course(over: bool, rest: seq<Arrival>, resends: nat)

  /** A timeout where the first of two answers is expected: in the first loop one more resend, in the second
      (`left`) the end. Else the answer is taken together with the next thing to come in: `one` is set for
      good by an ACK for n, `two` by one for n + 1, but the second wait clears it when it times out. Both
      set end the loop. */
  function Read(n: int, inbox: seq<Arrival>, one: bool, two: bool, left: bool): (c: Course)
    decreases |inbox|
  {
    if inbox == [] then Course(false, [], 0)
    else if inbox[0] == Silence then
      if left then Course(true, inbox[1..], 0)
      else
        var c := Read(n, inbox[1..], one, two, false);
        c.(resends := c.resends + 1)
    else if |inbox| == 1 then Course(false, [], 0)
    else
      var one' := one || inbox[0].answer == Answer(true, n);
      var two' := inbox[1] == Heard(Answer(true, n + 1)) || (two && inbox[1] != Silence);
      if one' && two' && left then Course(true, inbox[2..], 0)
      else Read(n, inbox[2..], one', two', left || (one' && two'))
  }

  ghost predicate Follows(s: Sender, n: int, c: Course, sent: seq<Packet>, h: (Sender, seq<Arrival>, seq<Packet>)) {
    && (h.0.stage == Idle <==> c.over) && h.1 == c.rest
    && h.2 == sent + Copies(n, s.block, c.resends) && h.0.next == (if c.over then n + 2 else n)
  }

  lemma CopiesFirst(n: int, block: Block, k: nat)
    ensures Copies(n, block, k + 1) == Copies(n, block, 1) + Copies(n, block, k)
  {
    if k > 0 {
      CopiesFirst(n, block, k - 1);
      var one := Copies(n, block, 1);
      assert Copies(n, block, 0) + one == one;
      assert one + Copies(n, block, k - 1) + one == one + (Copies(n, block, k - 1) + one);
    }
  }

  lemma {:induction false} LoopReads(s: Sender, inbox: seq<Arrival>, sent: seq<Packet>)
    requires s.stage in {First, Second} && (s.stage == First ==> !(s.slide1 && s.slide2))
    ensures Follows(s, s.next, Read(s.next, inbox, s.slide1, s.slide2, s.stage == Second), sent,
                    Exchange(s, inbox, sent))
    decreases |inbox|, 1
  {
    hide Exchange, Copies;
    var c := Read(s.next, inbox, s.slide1, s.slide2, s.stage == Second);
    ExchangeTurn(s, inbox, sent);
    NoCopies(s.next, s.block);
    assert sent + [] == sent;
    if inbox == [] {
    } else if inbox[0] == Silence {
      var (s1, more) := OnArrival(s, Silence);
      if s.stage == First {
        LoopReads(s1, inbox[1..], sent + more);
        OneCopy(s.next, s.block, c.resends - 1, sent);
      } else {
        ExchangeTurn(s1, inbox[1..], sent + more);
      }
    } else {
      TwoRead(s, inbox, sent);
    }
  }

  lemma NoCopies(n: int, block: Block)
    ensures Copies(n, block, 0) == [] && Copies(n, block, 1) == Pair(n, block)
  {
  }

  lemma OneCopy(n: int, block: Block, k: nat, sent: seq<Packet>)
    ensures sent + Pair(n, block) + Copies(n, block, k) == sent + Copies(n, block, k + 1)
  {
    hide Copies;
    NoCopies(n, block);
    CopiesFirst(n, block, k);
    assert sent + Pair(n, block) + Copies(n, block, k) == sent + (Pair(n, block) + Copies(n, block, k));
  }

  lemma TwoRead(s: Sender, inbox: seq<Arrival>, sent: seq<Packet>)
    requires s.stage in {First, Second} && (s.stage == First ==> !(s.slide1 && s.slide2))
    requires inbox != [] && inbox[0].Heard?
    ensures Follows(s, s.next, Read(s.next, inbox, s.slide1, s.slide2, s.stage == Second), sent,
                    Exchange(s, inbox, sent))
    decreases |inbox|, 0
  {
    hide Exchange, Copies;
    ExchangeTurn(s, inbox, sent);
    NoCopies(s.next, s.block);
    var (s1, none) := OnArrival(s, inbox[0]);
    assert sent + none == sent == sent + Copies(s.next, s.block, 0);
    ExchangeTurn(s1, inbox[1..], sent);
    if |inbox| > 1 {
      var (s2, none') := OnArrival(s1, inbox[1]);
      assert inbox[1..][1..] == inbox[2..] && sent + none' == sent;
      if s2.stage == Idle {
        ExchangeTurn(s2, inbox[2..], sent);
      } else {
        LoopReads(s2, inbox[2..], sent);
      }
    }
  }

  /** A CALL. For everything that may come in: a call of udpsend returns exactly when that reading is over,
      has read exactly that much, has its two packets on the socket once and then once for every timeout at
      the top of its first loop, in order, and the counter moves by two when it returns. */
  lemma CallReads(s: Sender, block: Block, inbox: seq<Arrival>, sent: seq<Packet>)
    ensures var c := Read(s.next, inbox, false, false, false);
            var h := Exchange(Call(s, block), inbox, sent + Copies(s.next, block, 1));
            && (h.0.stage == Idle <==> c.over) && h.1 == c.rest && h.0.next == (if c.over then s.next + 2 else s.next)
            && h.2 == sent + Copies(s.next, block, 1 + c.resends)
  {
    hide Exchange, Read;
    var c := Read(s.next, inbox, false, false, false);
    LoopReads(Call(s, block), inbox, sent + Copies(s.next, block, 1));
    CopiesFirst(s.next, block, c.resends);
    assert sent + Copies(s.next, block, 1) + Copies(s.next, block, c.resends) ==
           sent + (Copies(s.next, block, 1) + Copies(s.next, block, c.resends));
  }

  /** TIMEOUTS ALONE. However many there are, none ends the call, and each puts the packets there once more. */
  lemma {:induction false} TimeoutsResend(n: int, k: nat)
    ensures Read(n, seq(k, _ => Silence), false, false, false) == Course(false, [], k)
  {
    if k > 0 {
      TimeoutsResend(n, k - 1);
      assert seq(k, _ => Silence)[1..] == seq(k - 1, _ => Silence);
    }
  }

  lemma UnansweredCall(s: Sender, block: Block, k: nat, sent: seq<Packet>)
    ensures var h := Exchange(Call(s, block), seq(k, _ => Silence), sent + Copies(s.next, block, 1));
            h.0.stage != Idle && h.2 == sent + Copies(s.next, block, k + 1)
  {
    hide Exchange;
    TimeoutsResend(s.next, k);
    CallReads(s, block, seq(k, _ => Silence), sent);
  }
}
