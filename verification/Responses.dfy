/** What a receiver answers to each frame, and what it takes. */
module Responses {
  import opened Protocol
  import opened SenderSpec
  import opened Receiving

  /** The number a receiver waits for when frame `f` comes in; a reset one takes what it sees first. */
  function Awaited(last: int, f: Frame): int {
    if last == -1 then f.seqNum else (last + 1) % 32
  }

  predicate Taken(last: int, f: Frame) {
    f.ackType == Request && f.seqNum == Awaited(last, f)
  }

  /** At most one frame: an ACK with its own number for a packet that is taken, a NACK with the number waited
      for to any other packet, the same number to a probe, and the handshake data under a zero header to a
      frame that is left from the handshake. */
  function Response(last: int, f: Frame, hsData: Payload): seq<Frame> {
    match f.ackType
    case Request => [Frame(Awaited(last, f), if Taken(last, f) then Ack else Nack, ZeroData())]
    case Sack => [Frame(Awaited(last, f), Sack, ZeroData())]
    case Handshake => [Frame(0, Request, hsData)]
    case _ => []
  }

  /** The number of the last packet taken, as the receiver sees it after the frame. */
  function LastAfter(last: int, f: Frame): int {
    if f.ackType == Handshake then last
    else if Taken(last, f) then f.seqNum
    else (Awaited(last, f) + 31) % 32
  }

  function Responded(last: int, frames: seq<Frame>, hsData: Payload): seq<Frame>
    decreases frames
  {
    if frames == [] then []
    else Response(last, frames[0], hsData) + Responded(LastAfter(last, frames[0]), frames[1..], hsData)
  }

  function Received(last: int, frames: seq<Frame>): seq<Payload>
    decreases frames
  {
    if frames == [] then []
    else (if Taken(last, frames[0]) then [frames[0].data] else []) + Received(LastAfter(last, frames[0]), frames[1..])
  }

  lemma HearOne(r: Receiver, hsData: Payload)
    requires -1 <= r.lastSeq < SEQUENCE_NUM_MAX && r.inbox != []
    ensures var h, a := Hear(r, hsData), r.inbox[0];
            && h.inbox == r.inbox[1..]
            && (a.TimedOut? ==> h.lastSeq == r.lastSeq && h.sent == r.sent && h.accepted == r.accepted)
            && (a.Datagram? ==>
                  && h.lastSeq == LastAfter(r.lastSeq, a.frame)
                  && h.sent == r.sent + Response(r.lastSeq, a.frame, hsData)
                  && h.accepted == r.accepted + if Taken(r.lastSeq, a.frame) then [a.frame.data] else [])
  {
    assert r.sent + [] == r.sent && r.accepted + [] == r.accepted;
  }

  /** RESPONSES. For every stretch of sock_recvfrom or recv_file, up to where it stops reading: what it has
      sent are the responses to the frames it has read, one after the other, and what it has taken are the
      packets that had the number waited for. */
  lemma {:induction false} ListenResponds(r: Receiver, hsData: Payload, goal: nat)
    requires -1 <= r.lastSeq < SEQUENCE_NUM_MAX && |r.accepted| <= goal
    ensures var t := Listen(r, hsData, goal);
            && |t.inbox| <= |r.inbox| && t.inbox == r.inbox[|r.inbox| - |t.inbox|..]
            && var frames := Frames(r.inbox[..|r.inbox| - |t.inbox|]);
               && t.sent == r.sent + Responded(r.lastSeq, frames, hsData)
               && t.accepted == r.accepted + Received(r.lastSeq, frames)
    decreases |r.inbox|
  {
    hide Listen, Hear, Response, LastAfter, Taken, Frames, Responded, Received;
    ListenTurn(r, hsData, goal);
    if |r.accepted| == goal || r.inbox == [] {
      NothingRead(r, hsData);
    } else {
      var h := Hear(r, hsData);
      HearOne(r, hsData);
      ListenResponds(h, hsData, goal);
      var t := Listen(h, hsData, goal);
      var n := |r.inbox| - |t.inbox|;
      FramesFirst(r.inbox[..n]);
      assert r.inbox[..n][0] == r.inbox[0] && r.inbox[..n][1..] == h.inbox[..n - 1];
      if r.inbox[0].Datagram? {
        RespondedFirst(r, r.inbox[0].frame, Frames(h.inbox[..n - 1]), hsData);
      }
    }
  }

  lemma NothingRead(r: Receiver, hsData: Payload)
    ensures Responded(r.lastSeq, Frames(r.inbox[..0]), hsData) == [] && r.sent + [] == r.sent
    ensures Received(r.lastSeq, Frames(r.inbox[..0])) == [] && r.accepted + [] == r.accepted
  {
  }

  lemma FramesFirst(inbox: seq<Arrival>)
    requires inbox != []
    ensures Frames(inbox) == (if inbox[0].TimedOut? then [] else [inbox[0].frame]) + Frames(inbox[1..])
    ensures inbox[0].TimedOut? ==> Frames(inbox) == Frames(inbox[1..])
  {
    assert [] + Frames(inbox[1..]) == Frames(inbox[1..]);
  }

  lemma RespondedFirst(r: Receiver, f: Frame, frames: seq<Frame>, hsData: Payload)
    ensures var all := [f] + frames;
            && r.sent + Responded(r.lastSeq, all, hsData) ==
               r.sent + Response(r.lastSeq, f, hsData) + Responded(LastAfter(r.lastSeq, f), frames, hsData)
            && r.accepted + Received(r.lastSeq, all) ==
               r.accepted + (if Taken(r.lastSeq, f) then [f.data] else []) + Received(LastAfter(r.lastSeq, f), frames)
  {
    hide Response, LastAfter, Taken;
    var all := [f] + frames;
    assert all[0] == f && all[1..] == frames;
  }

  // ----- the handshake -----

  function CountHandshakes(frames: seq<Frame>): nat {
    if frames == [] then 0 else CountHandshakes(frames[1..]) + if frames[0].ackType == Handshake then 1 else 0
  }

  /** The frames of type Request among those sent. */
  function Requests(frames: seq<Frame>): seq<Frame> {
    if frames == [] then [] else OfRequest(frames[0]) + Requests(frames[1..])
  }

  function OfRequest(f: Frame): seq<Frame> {
    if f.ackType == Request then [f] else []
  }

  lemma RequestsFirst(f: Frame, frames: seq<Frame>)
    ensures Requests([f] + frames) == OfRequest(f) + Requests(frames)
  {
    assert ([f] + frames)[1..] == frames;
  }

  lemma Associates<T>(a: seq<T>, b: seq<T>, c: seq<T>)
    ensures a + b + c == a + (b + c)
  {
  }

  lemma {:induction false} RequestsJoin(xs: seq<Frame>, ys: seq<Frame>)
    ensures Requests(xs + ys) == Requests(xs) + Requests(ys)
  {
    hide OfRequest, Requests;
    if xs == [] {
      NoRequests();
      assert [] + ys == ys && [] + Requests(ys) == Requests(ys);
    } else {
      var f, rest := xs[0], xs[1..];
      assert xs == [f] + rest;
      Associates([f], rest, ys);
      RequestsJoin(rest, ys);
      RequestsFirst(f, rest);
      RequestsFirst(f, rest + ys);
      Associates(OfRequest(f), Requests(rest), Requests(ys));
    }
  }

  /** LATE HANDSHAKES. Among all that a receiver sends there is one frame of type Request for each handshake
      frame it has read; each has number 0 and holds the data of the handshake. */
  lemma {:induction false} HandshakesAnswered(last: int, frames: seq<Frame>, hsData: Payload)
    ensures Requests(Responded(last, frames, hsData)) == seq(CountHandshakes(frames), _ => Frame(0, Request, hsData))
    decreases frames
  {
    hide Response, LastAfter, Requests;
    if frames == [] {
      assert Requests([]) == [] by { NoRequests(); }
    } else {
      HandshakesAnswered(LastAfter(last, frames[0]), frames[1..], hsData);
      RequestsJoin(Response(last, frames[0], hsData), Responded(LastAfter(last, frames[0]), frames[1..], hsData));
      OneResponse(last, frames[0], hsData);
    }
  }

  lemma NoRequests()
    ensures Requests([]) == []
  {
  }

  lemma OneResponse(last: int, f: Frame, hsData: Payload)
    ensures Requests(Response(last, f, hsData)) == if f.ackType == Handshake then [Frame(0, Request, hsData)] else []
  {
    var one := Response(last, f, hsData);
    NoRequests();
    if one != [] {
      assert one[1..] == [];
    }
  }
}
