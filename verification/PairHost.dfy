/** udpsend and udprecv in their own form. Server and client have the same two functions. */
module PairHost {
  import opened PairSpec

  class Peer {
    var sendTempSeq: nat
    var recTempSeq: nat

    // what the socket still delivers to udpsend and to udprecv, and what each has sent on it
    var answers: seq<Arrival>
    var datagrams: seq<Datagram>
    var packetsOut: seq<Packet>
    var answersOut: seq<Answer>

    // where udpsend is, as one value
    ghost var call: Sender

    ghost predicate Valid()
      reads this
    {
      call.next == sendTempSeq
    }

    ghost function Listener(): Receiver
      reads this
    {
      Receiver(recTempSeq, [])
    }

    constructor (block: Block)
      ensures Valid() && call == Sender(0, Idle, block, false, false, 0) && Listener() == Receiver(0, [])
      ensures answers == [] && datagrams == [] && packetsOut == [] && answersOut == []
    {
      sendTempSeq, recTempSeq := 0, 0;
      answers, datagrams, packetsOut, answersOut := [], [], [], [];
      call := Sender(0, Idle, block, false, false, 0);
    }

    /** What comes in next, when anything does. */
    method Await() returns (a: Arrival)
      requires Valid() && call.stage != Idle && answers != []
      modifies this`answers, this`call
      ensures a == old(answers[0]) && answers == old(answers)[1..] && call == old(OnArrival(call, answers[0]).0)
    {
      a := answers[0];
      answers := answers[1..];
      call := OnArrival(call, a).0;
    }

    /** The second wait inside each of the two loops, and the flag it leaves. */
    method AwaitSecond(was: bool) returns (arrived: bool, slide2: bool)
      requires Valid() && call.stage in {FirstRest, SecondRest} && was == call.slide2
      modifies this`answers, this`call
      ensures arrived <==> old(answers) != []
      ensures !arrived ==> answers == [] && call == old(call)
      ensures arrived ==> answers == old(answers)[1..] && call == old(OnArrival(call, answers[0]).0)
      ensures arrived ==> slide2 == call.slide2
      ensures Exchange(call, answers, packetsOut) == old(Exchange(call, answers, packetsOut))
    {
      slide2, arrived := was, false;
      ExchangeTurn(call, answers, packetsOut);
      assert packetsOut + [] == packetsOut;
      if answers != [] {
        var a := Await();
        arrived := true;
        match a {
          case Silence => slide2 := false;
          case Heard(answer) => slide2 := was || (answer.ack && answer.seqNo == sendTempSeq + 1);
        }
      }
    }

    /** udpsend; `done` is false when it is still waiting at the end of all that comes in. */
    method UdpSend(block: Block) returns (done: bool)
      requires Valid() && call.stage == Idle
      modifies this`sendTempSeq, this`answers, this`packetsOut, this`call
      ensures Valid() && (done <==> call.stage == Idle)
      ensures (call, answers, packetsOut) ==
              old(Exchange(Call(call, block), answers, packetsOut + Pair(call.next, block)))
    {
      hide OnArrival, Exchange;
      ghost var goal := Exchange(Call(call, block), answers, packetsOut + Pair(call.next, block));
      call := Call(call, block);
      var n := sendTempSeq;
      packetsOut := packetsOut + [Packet(n, block[..PACKET_LENGTH]), Packet(n + 1, block[PACKET_LENGTH..])];
      var slide1, slide2, resendcount: nat := false, false, 0;
      var again := true;
      while again
        invariant call == Sender(n, if again then First else Second, block, slide1, slide2, resendcount)
        invariant sendTempSeq == n && goal == Exchange(call, answers, packetsOut)
        decreases |answers|, again
      {
        var arrived;
        arrived, slide1, slide2, resendcount, again := FirstTurn(block, slide1, slide2, resendcount);
        if !arrived {
          ExchangeTurn(call, answers, packetsOut);
          return false;
        }
      }
      done := Linger(block, slide1, slide2, resendcount);
    }

    /** The body of the first loop. */
    method FirstTurn(block: Block, was1: bool, was2: bool, resent: nat)
      returns (arrived: bool, slide1: bool, slide2: bool, resendcount: nat, again: bool)
      requires call == Sender(sendTempSeq, First, block, was1, was2, resent)
      modifies this`answers, this`packetsOut, this`call
      ensures Exchange(call, answers, packetsOut) == old(Exchange(call, answers, packetsOut))
      ensures call.stage != Idle && call.next == sendTempSeq
      ensures !arrived ==> answers == []
      ensures arrived ==> |answers| < |old(answers)|
      ensures arrived ==>
        call == Sender(sendTempSeq, if again then First else Second, block, slide1, slide2, resendcount)
    {
      hide AtSecond, AtSecondRest, Exchange;
      slide1, slide2, resendcount, again, arrived := was1, was2, resent, true, false;
      var n := sendTempSeq;
      ExchangeTurn(call, answers, packetsOut);
      if answers == [] {
        return;
      }
      var a := Await();
      arrived := true;
      match a {
        case Silence =>
          packetsOut := packetsOut + [Packet(n, block[..PACKET_LENGTH]), Packet(n + 1, block[PACKET_LENGTH..])];
          resendcount := resendcount + 1;
        case Heard(answer) =>
          assert packetsOut + [] == packetsOut;
          if answer.ack && answer.seqNo == n {
            slide1 := true;
          }
          arrived, slide2 := AwaitSecond(slide2);
      }
      again := (a.Silence? && resendcount <= RESEND_LIMIT) || !(slide1 && slide2);
    }

    /** The second loop of udpsend, which only ever ends in success. */
    method Linger(block: Block, was1: bool, was2: bool, ghost resent: nat) returns (done: bool)
      requires call == Sender(sendTempSeq, Second, block, was1, was2, resent)
      modifies this`sendTempSeq, this`answers, this`call
      ensures Valid() && (done <==> call.stage == Idle) && (done ==> sendTempSeq == old(sendTempSeq) + 2)
      ensures (call, answers, packetsOut) == old(Exchange(call, answers, packetsOut))
    {
      hide OnArrival, Exchange;
      ghost var goal := Exchange(call, answers, packetsOut);
      var slide1, slide2, n := was1, was2, sendTempSeq;
      var again, arrived := true, true;
      while again
        invariant sendTempSeq == n && goal == Exchange(call, answers, packetsOut)
        invariant again ==> call == Sender(n, Second, block, slide1, slide2, resent)
        invariant !again ==> call.stage == Idle && call.next == n + 2
        decreases |answers|, again
      {
        arrived, slide1, slide2, again := SecondTurn(block, slide1, slide2, resent);
        if !arrived {
          ExchangeTurn(call, answers, packetsOut);
          return false;
        }
      }
      ExchangeTurn(call, answers, packetsOut);
      sendTempSeq := sendTempSeq + 2;
      done := true;
    }

    /** The body of the second loop; a timeout there is the end of the call. */
    method SecondTurn(block: Block, was1: bool, was2: bool, ghost resent: nat)
      returns (arrived: bool, slide1: bool, slide2: bool, again: bool)
      requires call == Sender(sendTempSeq, Second, block, was1, was2, resent)
      modifies this`answers, this`call
      ensures Exchange(call, answers, packetsOut) == old(Exchange(call, answers, packetsOut))
      ensures !arrived ==> answers == [] && call.stage != Idle && call.next == sendTempSeq
      ensures arrived ==> |answers| < |old(answers)|
      ensures arrived && again ==> call == Sender(sendTempSeq, Second, block, slide1, slide2, resent)
      ensures arrived && !again ==> call.stage == Idle && call.next == sendTempSeq + 2
    {
      hide AtFirst, AtFirstRest, Exchange;
      slide1, slide2, again, arrived := was1, was2, true, false;
      ExchangeTurn(call, answers, packetsOut);
      assert packetsOut + [] == packetsOut;
      if answers == [] {
        return;
      }
      var a := Await();
      arrived := true;
      match a {
        case Silence => again := false;
        case Heard(answer) =>
          if answer.ack && answer.seqNo == sendTempSeq {
            slide1 := true;
          }
          arrived, slide2 := AwaitSecond(slide2);
          again := !(slide1 && slide2);
      }
    }

    /** udprecv: a block, or NULL, or Listening when nothing more comes in before it can return. */
    method UdpRecv() returns (result: Result)
      modifies this`recTempSeq, this`datagrams, this`answersOut
      ensures var (r, rest, sent, outcome) := old(Hear(Listener(), datagrams, answersOut));
              && recTempSeq == r.next && datagrams == rest && answersOut == sent && result == outcome
              && (result != Listening ==> r.first == [])
    {
      ghost var goal := Hear(Listener(), datagrams, answersOut);
      while true
        invariant recTempSeq == old(recTempSeq)
        invariant goal == Hear(Listener(), datagrams, answersOut)
        decreases |datagrams|
      {
        assert answersOut + [] == answersOut;
        if datagrams == [] {
          return Listening;
        }
        var d := datagrams[0];
        datagrams := datagrams[1..];
        if datagrams == [] {
          return Listening;
        }
        var e := datagrams[0];
        datagrams := datagrams[1..];
        if d.Got? && e.Got? {
          var p, q := d.packet, e.packet;
          if p.seqNo == recTempSeq && q.seqNo == recTempSeq + 1 {
            answersOut := answersOut + [Answer(true, p.seqNo), Answer(true, q.seqNo)];
            recTempSeq := recTempSeq + 2;
            return Returned(p.data + q.data);
          } else if p.seqNo == recTempSeq - 2 && q.seqNo == recTempSeq - 1 {
            answersOut := answersOut + [Answer(true, p.seqNo), Answer(true, q.seqNo)];
            return Null;
          }
          answersOut := answersOut + [Answer(false, p.seqNo), Answer(false, q.seqNo)];
          return Null;
        }
      }
    }
  }
}
