/** Constants and frame layout of the sliding-window protocol (protocol.h). */
module Protocol {

  /** Bytes of data in one UDPPACKET. */
  const BUFFER_LENGTH := 1024

  /** Number of values of the 5-bit field UDPPACKET.seq; also the size of every arrACK. */
  const SEQUENCE_NUM_MAX := 32

  /** Number of values of an `unsigned int`, the type of SockLib.seq. */
  const UINT_RANGE := 0x1_0000_0000

  /** retryCnt at the start of udp_sendtoEx. */
  const RETRY_LIMIT := 1000

  type Byte = n: int | 0 <= n < 256
  type Payload = data: seq<Byte> | |data| == BUFFER_LENGTH witness seq(BUFFER_LENGTH, _ => 0)
  type SeqNum = n: int | 0 <= n < SEQUENCE_NUM_MAX

  /** The values of UDPPACKET.ackType, 0 to 4 in this order. */
  datatype AckType = Request | Ack | Nack | Sack | Handshake

  datatype Frame = Frame(seqNum: SeqNum, ackType: AckType, data: Payload)

  /** What storing an integer in a 5-bit field, or masking it with 0x1F, keeps of it. */
  function Low5(n: int): SeqNum {
    n % SEQUENCE_NUM_MAX
  }

  function ZeroData(): Payload {
    seq(BUFFER_LENGTH, _ => 0)
  }

  /** The packet send_ack puts on the wire. */
  function Reply(seqNum: int, ackType: AckType): Frame {
    Frame(Low5(seqNum), ackType, ZeroData())
  }

  /** Two integers less than 32 apart have the same low five bits only when they are equal. */
  lemma Low5Injective(a: int, b: int)
    requires -SEQUENCE_NUM_MAX < a - b < SEQUENCE_NUM_MAX
    ensures Low5(a) == Low5(b) <==> a == b
  {
  }

  /** Whole multiples of 32 do not reach the low five bits. */
  lemma Low5Shift(a: int, k: int)
    ensures Low5(a + SEQUENCE_NUM_MAX * k) == Low5(a)
  {
  }

  /** Taking low bits commutes with adding, so a masked counter tracks the unmasked one. */
  lemma Low5Sum(a: int, b: int)
    ensures Low5(Low5(a) + b) == Low5(a + b)
  {
    Low5Shift(Low5(a) + b, a / SEQUENCE_NUM_MAX);
  }

  /** The 32-bit counter wraps at a multiple of 32, so its wrap-around is invisible in five bits. */
  lemma Low5OfUint(a: int)
    ensures Low5(a % UINT_RANGE) == Low5(a)
  {
    var k := 0x800_0000 * (a / UINT_RANGE);
    assert a == a % UINT_RANGE + SEQUENCE_NUM_MAX * k;
    Low5Shift(a % UINT_RANGE, k);
  }
}
