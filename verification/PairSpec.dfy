/** The pair-at-a-time protocol of Assign3_zcl: two packets make one block, numbers are not reduced. */
module PairSpec {
  import opened Protocol

  const PACKET_LENGTH := 130
  const BLOCK_LENGTH := 260

  type Half = data: seq<Byte> | |data| == PACKET_LENGTH witness seq(PACKET_LENGTH, _ => 0)
  type Block = data: seq<Byte> | |data| == BLOCK_LENGTH witness seq(BLOCK_LENGTH, _ => 0)

  datatype Packet = Packet(seqNo: int, data: Half)

  /** A reply with its number; `ack` tells whether its text begins with the letter A. */
  datatype Answer = Answer(ack: bool, seqNo: int)

  /** sendmsg and sendmsg2 for a block. */
  function Pair(n: int, block: Block): seq<Packet> {
    [Packet(n, block[..PACKET_LENGTH]), Packet(n + 1, block[PACKET_LENGTH..])]
  }

  // ----- udpsend -----

  /** Where udpsend waits: at the top of one of its two loops, or for the second answer inside it. */
  datatype Stage = Idle | First | FirstRest | Second | SecondRest

  datatype Sender = Sender(next: nat, stage: Stage, block: Block, slide1: bool, slide2: bool, resent: nat)

  /** What select and recvfrom report: the timer ran out, or a reply. */
  datatype Arrival = Silence | Heard(answer: Answer)

  const RESEND_LIMIT: nat := 3

  predicate Acks(a: Answer, n: int) {
    a.ack && a.seqNo == n
  }

  /** The start of a call, up to the first wait; the two packets go out. */
  function Call(s: Sender, block: Block): Sender {
    s.(stage := First, block := block, slide1 := false, slide2 := false, resent := 0)
  }

  function AtFirst(s: Sender, a: Arrival): (Sender, seq<Packet>) {
    if a == Silence then
      var again := s.resent + 1 <= RESEND_LIMIT || !(s.slide1 && s.slide2);
      (s.(resent := s.resent + 1, stage := if again then First else Second), Pair(s.next, s.block))
    else (s.(slide1 := s.slide1 || Acks(a.answer, s.next), stage := FirstRest), [])
  }

  function AtFirstRest(s: Sender, a: Arrival): Sender {
    if a == Silence then s.(slide2 := false, stage := First)
    else
      var slide2 := s.slide2 || Acks(a.answer, s.next + 1);
      s.(slide2 := slide2, stage := if s.slide1 && slide2 then Second else First)
  }

  function AtSecond(s: Sender, a: Arrival): Sender {
    if a == Silence then s.(next := s.next + 2, stage := Idle)
    else s.(slide1 := s.slide1 || Acks(a.answer, s.next), stage := SecondRest)
  }

  function AtSecondRest(s: Sender, a: Arrival): Sender {
    if a == Silence then s.(slide2 := false, stage := Second)
    else
      var slide2 := s.slide2 || Acks(a.answer, s.next + 1);
      if s.slide1 && slide2 then s.(slide2 := slide2, next := s.next + 2, stage := Idle)
      else s.(slide2 := slide2, stage := Second)
  }

  /** From one wait of udpsend to the next, or to its return; the packets sent on the way. */
  function OnArrival(s: Sender, a: Arrival): (Sender, seq<Packet>)
    requires s.stage != Idle
  {
    match s.stage
    case First => AtFirst(s, a)
    case FirstRest => (AtFirstRest(s, a), [])
    case Second => (AtSecond(s, a), [])
    case SecondRest => (AtSecondRest(s, a), [])
  }

  /** The rest of a call when `inbox` is all that will ever come in. */
  function Exchange(s: Sender, inbox: seq<Arrival>, sent: seq<Packet>): (r: (Sender, seq<Arrival>, seq<Packet>))
    ensures r.0.stage != Idle ==> r.1 == []
    decreases |inbox|
  {
    if s.stage == Idle || inbox == [] then (s, inbox, sent)
    else
      var (s', more) := OnArrival(s, inbox[0]);
      Exchange(s', inbox[1..], sent + more)
  }

  lemma ExchangeTurn(s: Sender, inbox: seq<Arrival>, sent: seq<Packet>)
    ensures Exchange(s, inbox, sent) ==
            if s.stage == Idle || inbox == [] then (s, inbox, sent)
            else var (s', more) := OnArrival(s, inbox[0]); Exchange(s', inbox[1..], sent + more)
  {
  }

  // ----- udprecv -----

  /** What a recvfrom of the receiver reports: an error, or a packet. */
  datatype Datagram = Broken | Got(packet: Packet)

  /** `first`: what the first of the two recvfrom calls has brought, if udprecv is between them. */
  datatype Receiver = Receiver(next: nat, first: seq<Datagram>)

  /** Whether udprecv goes on, or returns NULL, or a block. */
  datatype Result = Listening | Null | Returned(block: Block)

  function Answers(ack: bool, p: Packet, q: Packet): seq<Answer> {
    [Answer(ack, p.seqNo), Answer(ack, q.seqNo)]
  }

  function OnPair(r: Receiver, p: Packet, q: Packet): (Receiver, seq<Answer>, Result) {
    if p.seqNo == r.next && q.seqNo == r.next + 1 then
      (Receiver(r.next + 2, []), Answers(true, p, q), Returned(p.data + q.data))
    else
      var again := p.seqNo == r.next - 2 && q.seqNo == r.next - 1;
      (r.(first := []), Answers(again, p, q), Null)
  }

  function OnDatagram(r: Receiver, d: Datagram): (Receiver, seq<Answer>, Result) {
    if r.first == [] then (r.(first := [d]), [], Listening)
    else if r.first[0] == Broken || d == Broken then (r.(first := []), [], Listening)
    else OnPair(r, r.first[0].packet, d.packet)
  }

  /** A call of udprecv from a wait to its return: the state, the datagrams left, all answers sent, and
      the result; it is Listening when the inbox ends first. */
  function Hear(r: Receiver, inbox: seq<Datagram>, sent: seq<Answer>)
    : (h: (Receiver, seq<Datagram>, seq<Answer>, Result))
    ensures if h.3 == Listening then h.1 == [] else |h.1| < |inbox|
    decreases |inbox|
  {
    if inbox == [] then (r, inbox, sent, Listening)
    else
      var (r', more, result) := OnDatagram(r, inbox[0]);
      if result == Listening then Hear(r', inbox[1..], sent + more) else (r', inbox[1..], sent + more, result)
  }

  /** udprecv called again and again, for as long as anything comes in: the state, all answers sent, and
      what the calls that returned gave back. */
  function HearAll(r: Receiver, inbox: seq<Datagram>, sent: seq<Answer>): (Receiver, seq<Answer>, seq<Result>)
    decreases |inbox|
  {
    var (r1, rest, sent1, result) := Hear(r, inbox, sent);
    if result == Listening then (r1, sent1, [])
    else
      var (r2, sent2, results) := HearAll(r1, rest, sent1);
      (r2, sent2, [result] + results)
  }

  /** The blocks among the results of calls of udprecv. */
  function Returns(results: seq<Result>): seq<Block> {
    if results == [] then []
    else
      var last := results[|results| - 1];
      Returns(results[..|results| - 1]) + if last.Returned? then [last.block] else []
  }
}
