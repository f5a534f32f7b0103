/** What the sending and receiving code of socklib.cpp computes, as functions of its state. */
module SenderSpec {
  import opened Protocol

  /** winBuf with winBufPos, and the arrACK that is in use. The last slot is the memory just behind
      the allocated winBuf: the program reads it in one case and never writes it. */
  datatype Window = Window(slots: seq<Frame>, count: nat, acked: seq<bool>) {
    function Size(): int {
      |slots| - 1
    }

    predicate Valid() {
      1 <= Size() <= SEQUENCE_NUM_MAX && count <= Size() && |acked| == SEQUENCE_NUM_MAX
    }

    function Live(): seq<Frame>
      requires Valid()
    {
      slots[..count]
    }
  }

  function Unset(n: nat): (flags: seq<bool>)
    ensures |flags| == n && forall k | 0 <= k < n :: !flags[k]
  {
    seq(n, _ => false)
  }

  function NoAcks(): seq<bool> {
    Unset(SEQUENCE_NUM_MAX)
  }

  /** Index of the first frame numbered `num`, or the length if there is none. */
  function Find(frames: seq<Frame>, num: SeqNum): (k: nat)
    ensures k <= |frames|
    ensures forall j | 0 <= j < k :: frames[j].seqNum != num
    ensures k < |frames| ==> frames[k].seqNum == num
  {
    if frames == [] || frames[0].seqNum == num then 0 else 1 + Find(frames[1..], num)
  }

  /** Length of the longest run of set flags at the start. */
  function Leading(flags: seq<bool>): (k: nat)
    ensures k <= |flags|
    ensures forall j | 0 <= j < k :: flags[j]
    ensures k < |flags| ==> !flags[k]
  {
    if flags == [] || !flags[0] then 0 else 1 + Leading(flags[1..])
  }

  /** The test made when no live packet is numbered `num`: it looks one slot past the live ones.
      `recvSeq - 1` is unsigned, so for 0 it is no 5-bit number, and the mask applies to the outcome
      of the comparison. */
  predicate StaleHit(v: Window, num: SeqNum)
    requires v.Valid()
  {
    v.slots[v.count].seqNum == num - 1
  }

  /** The window without its first `i` packets: the others and their tags move to the left, except
      that nothing moves when none is left. */
  function Shift(v: Window, i: nat): (v': Window)
    requires v.Valid() && 0 < i <= v.count
    ensures v'.Valid() && v'.Size() == v.Size() && v'.count == v.count - i
  {
    var left := v.count - i;
    if 0 < left < v.Size() then
      Window(v.slots[i..v.count] + v.slots[left..], left,
             v.acked[i..v.count] + Unset(SEQUENCE_NUM_MAX - left))
    else v.(count := left)
  }

  /** remove_packets_from_win */
  function Remove(v: Window, num: SeqNum): (v': Window)
    requires v.Valid()
    ensures v'.Valid() && v'.Size() == v.Size() && v'.count <= v.count
  {
    var k := Find(v.Live(), num);
    if k < v.count then Shift(v, k + 1)
    else if StaleHit(v, num) then v.(count := 0)
    else v
  }

  /** The tagging part of get_max_seq. */
  function Mark(v: Window, num: SeqNum): (v': Window)
    requires v.Valid()
    ensures v'.Valid() && v'.slots == v.slots && v'.count == v.count
  {
    var k := Find(v.Live(), num);
    if k < v.count then v.(acked := v.acked[k := true]) else v
  }

  /** The length of the run of tagged packets that get_max_seq finds. */
  function AckRun(v: Window): (k: nat)
    requires v.Valid()
    ensures k <= v.count
  {
    Leading(v.acked[..v.count])
  }

  // ----- the sender -----

  /** Idle: between calls of udp_sendtoEx. Waiting: inside its loop. Failed: it returned -1. */
  datatype Phase = Idle | Waiting | Failed

  datatype Sender = Sender(view: Window, seqNo: nat, lastSeq: int, phase: Phase, waitForAck: bool, retry: nat) {
    predicate Valid() {
      view.Valid() && seqNo < UINT_RANGE && -1 <= lastSeq < SEQUENCE_NUM_MAX && (phase == Waiting ==> retry > 0)
    }
  }

  /** What lib_recvfrom reports: nothing came in time, or a datagram. */
  datatype Arrival = TimedOut | Datagram(frame: Frame)

  /** add_udpheader and the first half of copy_2_winbuf, for a window with room. */
  function Stamp(s: Sender, data: Payload): Sender
    requires s.Valid() && s.view.count < s.view.Size()
  {
    var v := s.view;
    s.(view := v.(slots := v.slots[v.count := Frame(Low5(s.seqNo), Request, data)], count := v.count + 1),
       seqNo := (s.seqNo + 1) % UINT_RANGE)
  }

  /** The slot whose packet closes a transmission: the last live one, or slot 0 of an empty window. */
  function LastSlot(v: Window): nat {
    if v.count == 0 then 0 else v.count - 1
  }

  /** Frames sent by send_all_win_packets(0) until the first wait. */
  function Burst(v: Window): seq<Frame>
    requires v.Valid()
  {
    v.slots[..LastSlot(v)] + [v.slots[LastSlot(v)]]
  }

  /** Frames sent by send_all_win_packets(1): all but the last live packet, then the one before the
      last once more, or the only one. */
  function Resend(v: Window): seq<Frame>
    requires v.Valid()
  {
    v.slots[..LastSlot(v)] + [v.slots[if v.count >= 2 then v.count - 2 else 0]]
  }

  /** send_special_request */
  function Probe(s: Sender): Frame {
    Reply(s.seqNo, Sack)
  }

  function Begin(s: Sender): Sender {
    s.(view := s.view.(acked := NoAcks()), phase := Waiting, waitForAck := false, retry := RETRY_LIMIT)
  }

  function OnTimeOut(s: Sender): (Sender, seq<Frame>)
    requires s.Valid() && s.phase == Waiting
  {
    var cleared := s.(view := s.view.(acked := NoAcks()), retry := s.retry - 1);
    if s.retry == 1 then (cleared.(phase := Failed), Resend(s.view) + [Probe(s)])
    else (cleared, Resend(s.view) + if s.waitForAck then [] else [s.view.slots[LastSlot(s.view)]])
  }

  /** The ACK branch of udp_sendtoEx. */
  function OnAck(s: Sender, num: SeqNum): Sender
    requires s.Valid()
  {
    if s.view.count == 0 then s.(phase := Failed)
    else
      var v := Mark(s.view, num);
      var run := AckRun(v);
      var v' := if run > 0 then Remove(v, v.slots[run - 1].seqNum) else v;
      if v'.count == 0 then s.(view := v', phase := Idle) else s.(view := v', waitForAck := true)
  }

  /** The NACK branch: the number is the one the receiver waits for. */
  function OnNack(s: Sender, num: SeqNum): Sender
    requires s.Valid()
  {
    s.(view := Remove(s.view, Low5(num - 1)), phase := Idle)
  }

  /** One turn of the loop in udp_sendtoEx from the return of lib_recvfrom to its next call. */
  function OnArrival(s: Sender, a: Arrival): (r: (Sender, seq<Frame>))
    requires s.Valid() && s.phase == Waiting
    ensures r.0.Valid() && r.0.view.Size() == s.view.Size()
    ensures r.0.phase == Waiting ==> r.0.retry == if a.TimedOut? then s.retry - 1 else s.retry
  {
    match a
    case TimedOut => OnTimeOut(s)
    case Datagram(f) =>
      match f.ackType
      case Ack => (OnAck(s, f.seqNum), [])
      case Nack => (OnNack(s, f.seqNum), [])
      case Sack => (OnNack(s, f.seqNum), [])
      case _ =>
        if f.seqNum == Low5(s.lastSeq + 1) then
          (s.(waitForAck := true), [Reply(f.seqNum, Ack)])
        else (s, if s.waitForAck then [] else [s.view.slots[LastSlot(s.view)]])
  }

  function NextArrival(inbox: seq<Arrival>): Arrival {
    if inbox == [] then TimedOut else inbox[0]
  }

  function LaterArrivals(inbox: seq<Arrival>): seq<Arrival> {
    if inbox == [] then [] else inbox[1..]
  }

  function OneTurn(s: Sender, inbox: seq<Arrival>, sent: seq<Frame>): (r: (Sender, seq<Arrival>, seq<Frame>))
    requires s.Valid() && s.phase == Waiting
    ensures r.0.Valid() && r.0.view.Size() == s.view.Size() && r.1 == LaterArrivals(inbox)
    ensures r.0.phase == Waiting ==> r.0.retry == if NextArrival(inbox).TimedOut? then s.retry - 1 else s.retry
  {
    var (s', frames) := OnArrival(s, NextArrival(inbox));
    (s', LaterArrivals(inbox), sent + frames)
  }

  /** The loop of udp_sendtoEx from a wait to its return, when `inbox` is all that will ever come in:
      the state it ends in, the arrivals left unread, and `sent` with all it sends appended. */
  function Exchange(s: Sender, inbox: seq<Arrival>, sent: seq<Frame>): (r: (Sender, seq<Arrival>, seq<Frame>))
    requires s.Valid()
    ensures r.0.Valid() && r.0.phase != Waiting && r.0.view.Size() == s.view.Size() && |r.1| <= |inbox|
    ensures s.phase == Waiting && r.0.phase == Idle ==> |r.1| < |inbox|
    decreases if s.phase == Waiting then 1 else 0, s.retry, |inbox|
  {
    if s.phase != Waiting then (s, inbox, sent)
    else
      var (s', rest, sent') := OneTurn(s, inbox, sent);
      Exchange(s', rest, sent')
  }

  /** send_all_win_packets(0) as a whole. */
  function Transmission(s: Sender, inbox: seq<Arrival>, sent: seq<Frame>): (r: (Sender, seq<Arrival>, seq<Frame>))
    requires s.Valid()
    ensures r.0.Valid() && r.0.phase != Waiting && r.0.view.Size() == s.view.Size() && |r.1| <= |inbox|
    ensures r.0.phase == Idle ==> |r.1| < |inbox|
  {
    Exchange(Begin(s), inbox, sent + Burst(s.view))
  }

  /** copy_2_winbuf: a payload that finds the window full is passed over, and a full window is sent. The
      phase afterwards is Failed exactly when the call returns a negative result. */
  function CopyIn(s: Sender, inbox: seq<Arrival>, sent: seq<Frame>, data: Payload)
    : (r: (Sender, seq<Arrival>, seq<Frame>))
    requires s.Valid()
    ensures r.0.Valid() && r.0.phase != Waiting && r.0.view.Size() == s.view.Size() && |r.1| <= |inbox|
  {
    var s1 := if s.view.count < s.view.Size() then Stamp(s, data) else s;
    if s1.view.count == s1.view.Size() then Transmission(s1, inbox, sent) else (s1.(phase := Idle), inbox, sent)
  }

  /** The loop that transmits until the window is empty or a call returns no more than 0. */
  function Drained(s: Sender, inbox: seq<Arrival>, sent: seq<Frame>): (r: (Sender, seq<Arrival>, seq<Frame>))
    requires s.Valid()
    ensures r.0.Valid() && r.0.view.Size() == s.view.Size() && |r.1| <= |inbox|
    ensures r.0.phase == Failed || r.0.view.count == 0
    decreases |inbox|
  {
    var (s1, rest, more) := Transmission(s, inbox, sent);
    if s1.phase == Failed || s1.view.count == 0 then (s1, rest, more) else Drained(s1, rest, more)
  }

  /** The calls a transfer is made of: copy_2_winbuf, and the loop that sends until the window is empty. */
  datatype Command = Copy(data: Payload) | Drain

  /** What a series of calls works on; `keep` tells for each payload copied so far whether it was stamped. */
  datatype Work = Work(tx: Sender, inbox: seq<Arrival>, sent: seq<Frame>, keep: seq<bool>)

  function Carry(w: Work, c: Command): (w': Work)
    requires w.tx.Valid()
    ensures w'.tx.Valid() && w'.tx.view.Size() == w.tx.view.Size()
  {
    match c
    case Copy(data) =>
      var (tx, rest, sent) := CopyIn(w.tx, w.inbox, w.sent, data);
      Work(tx, rest, sent, w.keep + [w.tx.view.count < w.tx.view.Size()])
    case Drain =>
      var (tx, rest, sent) := Drained(w.tx, w.inbox, w.sent);
      Work(tx, rest, sent, w.keep)
  }

  /** All calls in turn, as long as none fails. */
  function Perform(w: Work, commands: seq<Command>): (w': Work)
    requires w.tx.Valid()
    ensures w'.tx.Valid() && w'.tx.view.Size() == w.tx.view.Size()
    decreases commands
  {
    if commands == [] then w
    else
      var w1 := Carry(w, commands[0]);
      if w1.tx.phase == Failed then w1 else Perform(w1, commands[1..])
  }

  lemma PerformTurn(w: Work, commands: seq<Command>)
    requires w.tx.Valid()
    ensures Perform(w, commands) ==
            if commands == [] then w
            else if Carry(w, commands[0]).tx.phase == Failed then Carry(w, commands[0])
            else Perform(Carry(w, commands[0]), commands[1..])
  {
  }

  /** sock_sendtoEx with flag 0 */
  function MessageCommands(data: Payload): seq<Command> {
    [Copy(data), Drain]
  }

  /** send_file, for the buffers it reads. */
  function FileCommands(chunks: seq<Payload>): (commands: seq<Command>)
    ensures |commands| == |chunks| + 1
  {
    seq(|chunks|, i requires 0 <= i < |chunks| => Copy(chunks[i])) + [Drain]
  }

  lemma FileTurn(w: Work, chunks: seq<Payload>, n: nat)
    requires w.tx.Valid() && n <= |chunks|
    ensures Perform(w, FileCommands(chunks)[n..]) ==
            if n == |chunks| then Carry(w, Drain)
            else if Carry(w, Copy(chunks[n])).tx.phase == Failed then Carry(w, Copy(chunks[n]))
            else Perform(Carry(w, Copy(chunks[n])), FileCommands(chunks)[n + 1..])
  {
    hide Perform, Carry;
    var commands := FileCommands(chunks)[n..];
    PerformTurn(w, commands);
    if n == |chunks| {
      assert commands == [Drain] && commands[1..] == [];
      PerformTurn(Carry(w, Drain), []);
    } else {
      assert commands[0] == Copy(chunks[n]) && commands[1..] == FileCommands(chunks)[n + 1..];
    }
  }

  lemma MessageTurn(w: Work, data: Payload)
    requires w.tx.Valid()
    ensures Perform(w, MessageCommands(data)) ==
            if Carry(w, Copy(data)).tx.phase == Failed then Carry(w, Copy(data)) else Carry(Carry(w, Copy(data)), Drain)
  {
    hide Perform, Carry;
    var commands := MessageCommands(data);
    assert commands[1..] == [Drain] && [Drain][1..] == [];
    PerformTurn(w, commands);
    PerformTurn(Carry(w, Copy(data)), [Drain]);
    PerformTurn(Carry(Carry(w, Copy(data)), Drain), []);
  }

  /** What the top of the loop sends before it waits: a turn that leaves `s` has counted it already. */
  function Pending(s: Sender): seq<Frame>
    requires s.Valid()
  {
    if s.phase != Waiting || s.waitForAck then [] else [s.view.slots[LastSlot(s.view)]]
  }

  lemma ExchangeTurn(s: Sender, inbox: seq<Arrival>, sent: seq<Frame>)
    requires s.Valid() && s.phase == Waiting
    ensures var (s', rest, sent') := OneTurn(s, inbox, sent);
            Exchange(s, inbox, sent) == Exchange(s', rest, sent')
  {
  }

  lemma ExchangeOver(s: Sender, inbox: seq<Arrival>, sent: seq<Frame>)
    requires s.Valid() && s.phase != Waiting
    ensures Exchange(s, inbox, sent) == (s, inbox, sent)
  {
  }

  lemma ArrivalSmaller(s: Sender, a: Arrival)
    requires s.Valid() && s.phase == Waiting
    ensures OnArrival(s, a).0.view.count <= s.view.count
  {
    hide Mark, AckRun, Remove;
  }

  lemma {:induction false} ExchangeFewer(s: Sender, inbox: seq<Arrival>, sent: seq<Frame>)
    requires s.Valid()
    ensures Exchange(s, inbox, sent).0.view.count <= s.view.count
    decreases if s.phase == Waiting then 1 else 0, s.retry, |inbox|
  {
    hide OnArrival;
    if s.phase == Waiting {
      var (s', rest, sent') := OneTurn(s, inbox, sent);
      ArrivalSmaller(s, NextArrival(inbox));
      ExchangeFewer(s', rest, sent');
    }
  }

  // ----- the receiver -----

  /** What chk_seqEx does with a frame: the new lastSeq, the reply if any, and whether it accepts. */
  datatype Verdict = Verdict(lastSeq: int, reply: seq<Frame>, accepted: bool)

  function Check(lastSeq: int, f: Frame): (v: Verdict)
    requires -1 <= lastSeq < SEQUENCE_NUM_MAX
    ensures 0 <= v.lastSeq < SEQUENCE_NUM_MAX
  {
    var last := if lastSeq == -1 then Low5(f.seqNum - 1) else lastSeq;
    match f.ackType
    case Request =>
      if Low5(last + 1) == f.seqNum then Verdict(Low5(last + 1), [Reply(last + 1, Ack)], true)
      else Verdict(last, [Reply(last + 1, Nack)], false)
    case Sack => Verdict(last, [Reply(last + 1, Sack)], false)
    case _ => Verdict(last, [], false)
  }

  /** The state sock_recvfrom works on, with all replies sent and all payloads passed on. */
  datatype Receiver = Receiver(lastSeq: int, inbox: seq<Arrival>, sent: seq<Frame>, accepted: seq<Payload>)

  /** One turn of the loop of sock_recvfrom; a frame that still belongs to the handshake is answered
      with the handshake data and a zero header. */
  function Hear(r: Receiver, hsData: Payload): (r': Receiver)
    requires -1 <= r.lastSeq < SEQUENCE_NUM_MAX && r.inbox != []
    ensures -1 <= r'.lastSeq < SEQUENCE_NUM_MAX && r'.inbox == r.inbox[1..]
  {
    var next := r.(inbox := r.inbox[1..]);
    match r.inbox[0]
    case TimedOut => next
    case Datagram(f) =>
      if f.ackType == Handshake then next.(sent := r.sent + [Frame(0, Request, hsData)])
      else
        var v := Check(r.lastSeq, f);
        next.(lastSeq := v.lastSeq, sent := r.sent + v.reply,
              accepted := if v.accepted then r.accepted + [f.data] else r.accepted)
  }

  /** Turns until `goal` payloads have been passed on, or for as long as anything comes in. */
  function Listen(r: Receiver, hsData: Payload, goal: nat): (r': Receiver)
    requires -1 <= r.lastSeq < SEQUENCE_NUM_MAX && |r.accepted| <= goal
    ensures -1 <= r'.lastSeq < SEQUENCE_NUM_MAX && |r'.accepted| <= goal && r.accepted <= r'.accepted
    ensures |r'.accepted| < goal ==> r'.inbox == []
    decreases |r.inbox|
  {
    if |r.accepted| == goal || r.inbox == [] then r else Listen(Hear(r, hsData), hsData, goal)
  }

  lemma ListenTurn(r: Receiver, hsData: Payload, goal: nat)
    requires -1 <= r.lastSeq < SEQUENCE_NUM_MAX && |r.accepted| <= goal
    ensures Listen(r, hsData, goal) ==
            if |r.accepted| == goal || r.inbox == [] then r else Listen(Hear(r, hsData), hsData, goal)
  {
  }

  /** Listening for some payloads and then for more is listening for all of them. */
  lemma {:induction false} ListenOn(r: Receiver, hsData: Payload, a: nat, b: nat)
    requires -1 <= r.lastSeq < SEQUENCE_NUM_MAX && |r.accepted| <= a <= b
    ensures Listen(Listen(r, hsData, a), hsData, b) == Listen(r, hsData, b)
    decreases |r.inbox|
  {
    if |r.accepted| < a && r.inbox != [] {
      ListenOn(Hear(r, hsData), hsData, a, b);
    }
  }
}
