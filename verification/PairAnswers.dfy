/** What udprecv answers, for everything that comes in. */
module PairAnswers {
  import opened PairSpec
  import opened PairNet
  import opened PairCalls

  /** The pairs that calls of udprecv compare: datagrams two by two, without those with an error in them. */
  function Reads(inbox: seq<Datagram>): seq<(Packet, Packet)>
    decreases |inbox|
  {
    if |inbox| < 2 then []
    else (if inbox[0].Got? && inbox[1].Got? then [(inbox[0].packet, inbox[1].packet)] else []) + Reads(inbox[2..])
  }

  predicate Expected(r: int, pair: (Packet, Packet)) {
    pair.0.seqNo == r && pair.1.seqNo == r + 1
  }

  /** The pair the receiver took last. */
  predicate Repeated(r: int, pair: (Packet, Packet)) {
    pair.0.seqNo == r - 2 && pair.1.seqNo == r - 1
  }

  /** The numbers of a pair are answered in order, positively exactly if it comes next or was taken last; in
      the first case it is returned as a block. */
  predicate RightlyAnswered(r: int, pair: (Packet, Packet), first: Answer, second: Answer, result: Result) {
    var ack := Expected(r, pair) || Repeated(r, pair);
    && first == Answer(ack, pair.0.seqNo) && second == Answer(ack, pair.1.seqNo)
    && result == if Expected(r, pair) then Returned(pair.0.data + pair.1.data) else Null
  }

  /** Each pair gives two answers and one result. The receiver's counter is `n` at the beginning and grows by
      two with every block. */
  ghost predicate Answered(n: int, pairs: seq<(Packet, Packet)>, answers: seq<Answer>, results: seq<Result>) {
    && |results| == |pairs| && |answers| == 2 * |pairs|
    && forall k: nat | k < |pairs| ::
         RightlyAnswered(n + 2 * |Returns(results[..k])|, pairs[k], answers[2 * k], answers[2 * k + 1], results[k])
  }

  lemma OnePair(n: nat, p: Packet, q: Packet)
    ensures var (r, answers, result) := OnDatagram(Receiver(n, [Got(p)]), Got(q));
            && r == Receiver(if result.Returned? then n + 2 else n, []) && result != Listening
            && |answers| == 2 && RightlyAnswered(n, (p, q), answers[0], answers[1], result)
  {
  }

  /** Putting a pair in front. */
  lemma AnsweredFirst(n: int, pair: (Packet, Packet), first: Answer, second: Answer, result: Result,
                      pairs: seq<(Packet, Packet)>, answers: seq<Answer>, results: seq<Result>)
    requires RightlyAnswered(n, pair, first, second, result)
    requires Answered(if result.Returned? then n + 2 else n, pairs, answers, results)
    ensures Answered(n, [pair] + pairs, [first, second] + answers, [result] + results)
  {
    hide RightlyAnswered, Returns;
    var all, more, outcome := [pair] + pairs, [first, second] + answers, [result] + results;
    ReturnsShort();
    forall k: nat | k < |all|
      ensures RightlyAnswered(n + 2 * |Returns(outcome[..k])|, all[k], more[2 * k], more[2 * k + 1], outcome[k])
    {
      if k > 0 {
        assert outcome[..k] == [result] + results[..k - 1];
        ReturnsJoin([result], results[..k - 1]);
        assert more[2 * k] == answers[2 * (k - 1)] && more[2 * k + 1] == answers[2 * (k - 1) + 1];
        assert all[k] == pairs[k - 1] && outcome[k] == results[k - 1];
      } else {
        assert outcome[..0] == [];
      }
    }
  }

  lemma HearPair(n: nat, p: Packet, q: Packet, rest: seq<Datagram>, sent: seq<Answer>)
    returns (two: seq<Answer>, result: Result)
    ensures |two| == 2 && RightlyAnswered(n, (p, q), two[0], two[1], result)
    ensures HearAll(Receiver(n, []), [Got(p), Got(q)] + rest, sent) ==
            Prepend([result], HearAll(Receiver(if result.Returned? then n + 2 else n, []), rest, sent + two))
  {
    hide HearAll, RightlyAnswered;
    var inbox := [Got(p), Got(q)] + rest;
    assert inbox == [Got(p)] + ([Got(q)] + rest) && sent + [] == sent;
    HearFirst(Receiver(n, []), Got(p), [Got(q)] + rest, sent);
    HearFirst(Receiver(n, [Got(p)]), Got(q), rest, sent);
    OnePair(n, p, q);
    two, result := OnDatagram(Receiver(n, [Got(p)]), Got(q)).1, OnDatagram(Receiver(n, [Got(p)]), Got(q)).2;
    var h := HearAll(Receiver(n, [Got(p)]), [Got(q)] + rest, sent);
    assert [] + h.2 == h.2;
  }

  /** A pair with an error in it goes unanswered, and the call goes on. */
  lemma HearBroken(n: nat, d: Datagram, e: Datagram, rest: seq<Datagram>, sent: seq<Answer>)
    requires d == Broken || e == Broken
    ensures HearAll(Receiver(n, []), [d, e] + rest, sent) == HearAll(Receiver(n, []), rest, sent)
  {
    hide HearAll;
    var inbox := [d, e] + rest;
    assert inbox == [d] + ([e] + rest) && sent + [] == sent;
    HearFirst(Receiver(n, []), d, [e] + rest, sent);
    HearFirst(Receiver(n, [d]), e, rest, sent);
    var h, h' := HearAll(Receiver(n, [d]), [e] + rest, sent), HearAll(Receiver(n, []), rest, sent);
    assert [] + h.2 == h.2 && [] + h'.2 == h'.2;
  }

  lemma {:induction false} HearAllAnswers(n: nat, inbox: seq<Datagram>, sent: seq<Answer>)
    returns (answers: seq<Answer>)
    ensures var h := HearAll(Receiver(n, []), inbox, sent);
            h.1 == sent + answers && Answered(n, Reads(inbox), answers, h.2)
    decreases |inbox|
  {
    hide HearAll, Answered, RightlyAnswered;
    if |inbox| < 2 {
      FewHeard(n, inbox, sent);
      return [];
    }
    var d, e, rest := inbox[0], inbox[1], inbox[2..];
    assert inbox == [d, e] + rest;
    if d.Got? && e.Got? {
      var two, result := HearPair(n, d.packet, e.packet, rest, sent);
      var next := if result.Returned? then n + 2 else n;
      var more := HearAllAnswers(next, rest, sent + two);
      answers := two + more;
      assert sent + two + more == sent + answers && two == [two[0], two[1]];
      AnsweredFirst(n, (d.packet, e.packet), two[0], two[1], result, Reads(rest), more,
                    HearAll(Receiver(next, []), rest, sent + two).2);
    } else {
      HearBroken(n, d, e, rest, sent);
      answers := HearAllAnswers(n, rest, sent);
      assert [] + Reads(rest) == Reads(rest);
    }
  }

  lemma FewHeard(n: nat, inbox: seq<Datagram>, sent: seq<Answer>)
    requires |inbox| < 2
    ensures var h := HearAll(Receiver(n, []), inbox, sent);
            h.1 == sent + [] && h.2 == [] && Answered(n, Reads(inbox), [], h.2)
  {
    assert sent + [] == sent;
    if |inbox| == 1 {
      assert inbox == [inbox[0]] + [];
      HearFirst(Receiver(n, []), inbox[0], [], sent);
    }
  }

  /** ANSWERS. In every run, the calls of udprecv that have returned are as many as the pairs read; each has
      answered with the numbers of its pair, positively exactly for the pair expected or the one before it,
      and has returned a block exactly for the former, with the counter at twice the blocks returned. */
  lemma AnswersInRun(block: Block, events: seq<Event>)
    ensures var s0 := Init(block);
            Answered(0, Reads(AllIncoming(s0, events)), AllAnswered(s0, events), AllResults(s0, events))
  {
    hide HearAll, Reads, Answered, AllIncoming, AllAnswered, AllResults;
    var s0 := Init(block);
    ReceivingInRun(block, events);
    var answers := HearAllAnswers(0, AllIncoming(s0, events), []);
    assert [] + answers == answers;
  }
}
