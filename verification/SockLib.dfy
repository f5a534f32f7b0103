/** socklib.cpp in its own form: one object, updated in place by the sending and receiving calls. */
module SockLibrary {
  import opened Protocol
  import opened SenderSpec
  import opened Files
  import opened Sequences

  class SockLib {
    const wSize: nat
    const winBuf: array<Frame>
    var winBufPos: nat
    var seqNo: nat
    var lastSeq: int

    // what the socket still has to deliver, and everything sent on it
    var inbox: seq<Arrival>
    var wire: seq<Frame>

    // the same state as one value; its phase, waitForAck and retry follow udp_sendtoEx
    ghost var model: Sender

    // what the handshake left, and every payload passed on by the receiving calls
    const hsData: Payload
    var accepted: seq<Payload>

    // payloads given a header so far, and those that found the window full
    ghost var stamped: seq<Payload>
    ghost var skipped: seq<Payload>

    ghost predicate Valid()
      reads this, winBuf
    {
      && model.Valid() && model.view.Size() == wSize && model.view.slots == winBuf[..]
      && model.view.count == winBufPos && model.seqNo == seqNo && model.lastSeq == lastSeq
    }

    /** `arrAck` is the array of tags that goes with the window. */
    ghost predicate Tags(arrAck: array<bool>)
      reads this`model, arrAck
    {
      arrAck[..] == model.view.acked
    }

    /** udp_init, after the handshake has fixed the first sequence number. */
    constructor (windowSize: nat, memory: seq<Frame>, first: nat, handshake: Payload)
      requires 1 <= windowSize <= SEQUENCE_NUM_MAX && |memory| == windowSize + 1 && first < UINT_RANGE
      ensures Valid() && fresh(winBuf) && wSize == windowSize
      ensures model == Sender(Window(memory, 0, NoAcks()), first, -1, Idle, false, 0)
      ensures inbox == [] && wire == [] && stamped == [] && skipped == [] && accepted == [] && hsData == handshake
    {
      wSize := windowSize;
      winBuf := new Frame[windowSize + 1](i requires 0 <= i < |memory| => memory[i]);
      winBufPos, seqNo, lastSeq := 0, first, -1;
      inbox, wire, stamped, skipped, accepted, hsData := [], [], [], [], [], handshake;
      model := Sender(Window(memory, 0, NoAcks()), first, -1, Idle, false, 0);
    }

    method LibSendTo(f: Frame)
      modifies this`wire
      ensures wire == old(wire) + [f]
    {
      wire := wire + [f];
    }

    method LibRecvFrom() returns (a: Arrival)
      modifies this`inbox
      ensures a == NextArrival(old(inbox)) && inbox == LaterArrivals(old(inbox))
    {
      if inbox == [] {
        a := TimedOut;
      } else {
        a, inbox := inbox[0], inbox[1..];
      }
    }

    method AddUdpHeader(buf: Payload) returns (f: Frame)
      requires seqNo < UINT_RANGE
      modifies this`seqNo, this`stamped
      ensures f == Frame(Low5(old(seqNo)), Request, buf)
      ensures seqNo == (old(seqNo) + 1) % UINT_RANGE && stamped == old(stamped) + [buf]
    {
      f := Frame(Low5(seqNo), Request, buf);
      seqNo := (seqNo + 1) % UINT_RANGE;
      stamped := stamped + [buf];
    }

    /** The search for a number that remove_packets_from_win and get_max_seq begin with. */
    method FindSeq(num: SeqNum) returns (i: nat)
      requires Valid()
      ensures i == Find(model.view.Live(), num)
    {
      i := 0;
      while i < winBufPos
        invariant 0 <= i <= winBufPos
        invariant forall j | 0 <= j < i :: model.view.Live()[j].seqNum != num
      {
        assert model.view.Live()[i] == winBuf[i];
        if winBuf[i].seqNum == num {
          break;
        }
        i := i + 1;
      }
    }

    method RemovePacketsFromWin(recvSeq: SeqNum, arrAck: array<bool>) returns (left: nat)
      requires Valid() && Tags(arrAck)
      modifies this`winBufPos, this`model, winBuf, arrAck
      ensures Valid() && Tags(arrAck) && left == winBufPos
      ensures model == old(model.(view := Remove(model.view, recvSeq)))
    {
      hide Shift;
      ghost var v := model.view;
      var i := FindSeq(recvSeq);
      if i < winBufPos {
        ShiftOut(i + 1, arrAck);
      } else if winBuf[i].seqNum == recvSeq - 1 {
        winBufPos := 0;
        model := model.(view := v.(count := 0));
      }
      left := winBufPos;
    }

    /** The branch of remove_packets_from_win for a number that was found. */
    method ShiftOut(i: nat, arrAck: array<bool>)
      requires Valid() && Tags(arrAck) && 0 < i <= winBufPos
      modifies this`winBufPos, this`model, winBuf, arrAck
      ensures Valid() && Tags(arrAck)
      ensures model == old(model.(view := Shift(model.view, i)))
    {
      hide Shift;
      ghost var v := model.view;
      winBufPos := winBufPos - i;
      if winBufPos > 0 && winBufPos < wSize {
        CopyDown(winBuf, i, winBufPos);
        ghost var slots := winBuf[..];
        MoveTags(i, winBufPos, arrAck);
        assert winBuf[..] == slots;
        Shifted(v, i, slots, arrAck[..]);
      } else {
        Unmoved(v, i);
      }
      model := model.(view := Shift(v, i));
    }

    /** The same for the tags, and the loop that clears the rest of them. */
    static method MoveTags(i: nat, count: nat, arrAck: array<bool>)
      requires arrAck.Length == SEQUENCE_NUM_MAX && 0 < i && i + count <= SEQUENCE_NUM_MAX
      modifies arrAck
      ensures arrAck[..] == old(arrAck[..])[i..i + count] + Unset(SEQUENCE_NUM_MAX - count)
    {
      ghost var was := arrAck[..];
      CopyDown(arrAck, i, count);
      assert arrAck[..][..count] == was[i..i + count];
      ClearFrom(count, arrAck);
    }

    static lemma Shifted(v: Window, i: nat, slots: seq<Frame>, acked: seq<bool>)
      requires v.Valid() && 0 < i <= v.count && 0 < v.count - i < v.Size()
      requires var left := v.count - i;
               && slots == v.slots[i..i + left] + v.slots[left..]
               && acked == v.acked[i..i + left] + Unset(SEQUENCE_NUM_MAX - left)
      ensures Shift(v, i).slots == slots && Shift(v, i).acked == acked
    {
    }

    static lemma Unmoved(v: Window, i: nat)
      requires v.Valid() && 0 < i <= v.count && !(0 < v.count - i < v.Size())
      ensures Shift(v, i).slots == v.slots && Shift(v, i).acked == v.acked
    {
    }

    /** The copying loop of remove_packets_from_win, on winBuf and on arrACK. */
    static method CopyDown<T>(a: array<T>, i: nat, count: nat)
      requires 0 < i && i + count <= a.Length
      modifies a
      ensures a[..] == old(a[..])[i..i + count] + old(a[..])[count..]
    {
      ghost var was := a[..];
      var j := 0;
      while j < count
        invariant 0 <= j <= count
        invariant forall k | 0 <= k < j :: a[k] == was[i + k]
        invariant forall k | j <= k < a.Length :: a[k] == was[k]
      {
        a[j] := a[i + j];
        j := j + 1;
      }
    }

    static method ClearFrom(j: nat, arrAck: array<bool>)
      requires arrAck.Length == SEQUENCE_NUM_MAX && j <= SEQUENCE_NUM_MAX
      modifies arrAck
      ensures arrAck[..] == old(arrAck[..])[..j] + Unset(SEQUENCE_NUM_MAX - j)
    {
      var k := j;
      while k < SEQUENCE_NUM_MAX
        invariant j <= k <= SEQUENCE_NUM_MAX
        invariant arrAck[..j] == old(arrAck[..j])
        invariant forall m | j <= m < k :: !arrAck[m]
      {
        arrAck[k] := false;
        k := k + 1;
      }
    }

    /** Tags the acknowledged packet and returns the number of the last packet of the leading run of
        tagged ones: 1 if there is one, 0 if there is none, -1 for an empty window. */
    method GetMaxSeq(ackSeq: SeqNum, arrAck: array<bool>) returns (ret: int, biggest: SeqNum)
      requires Valid() && Tags(arrAck)
      modifies this`model, arrAck
      ensures Valid() && Tags(arrAck)
      ensures model == old(model.(view := Mark(model.view, ackSeq)))
      ensures ret == (if winBufPos == 0 then -1 else if AckRun(model.view) > 0 then 1 else 0)
      ensures ret == -1 ==> model == old(model)
      ensures ret == 1 ==> biggest == model.view.slots[AckRun(model.view) - 1].seqNum
    {
      biggest := SEQUENCE_NUM_MAX - 1;
      ghost var v := model.view;
      if winBufPos == 0 {
        assert Mark(v, ackSeq) == v;
        return -1, biggest;
      }
      var i := FindSeq(ackSeq);
      if i < winBufPos {
        arrAck[i] := true;
      }
      model := model.(view := Mark(v, ackSeq));
      var j := CountLeading(arrAck);
      if j > 0 {
        return 1, winBuf[j - 1].seqNum;
      }
      return 0, biggest;
    }

    method CountLeading(arrAck: array<bool>) returns (j: nat)
      requires Valid() && Tags(arrAck)
      ensures j == AckRun(model.view)
    {
      j := 0;
      while j < winBufPos && arrAck[j]
        invariant 0 <= j <= winBufPos
        invariant forall k | 0 <= k < j :: model.view.acked[..winBufPos][k]
      {
        assert model.view.acked[..winBufPos][j] == arrAck[j];
        j := j + 1;
      }
      assert j < winBufPos ==> model.view.acked[..winBufPos][j] == arrAck[j];
    }

    method SendSpecialRequest()
      requires Valid()
      modifies this`wire
      ensures wire == old(wire) + [Probe(model)]
    {
      LibSendTo(Reply(seqNo, Sack));
    }

    method SendAck(num: int, ackType: AckType)
      modifies this`wire
      ensures wire == old(wire) + [Reply(num, ackType)]
    {
      LibSendTo(Reply(num, ackType));
    }

    /** send_all_win_packets(1): nothing is waited for. */
    method ResendAllWinPackets()
      requires Valid()
      modifies this`wire
      ensures wire == old(wire) + Resend(model.view)
    {
      var slot, i := 0, 0;
      while i + 1 < winBufPos
        invariant 0 <= i <= LastSlot(model.view)
        invariant wire == old(wire) + model.view.slots[..i]
        invariant slot == if i == 0 then 0 else i - 1
      {
        slot := i;
        LibSendTo(winBuf[slot]);
        i := i + 1;
      }
      LibSendTo(winBuf[slot]);
    }

    /** send_all_win_packets(0): the last packet is sent by udp_sendtoEx, which waits. */
    method SendAllWinPackets() returns (ret: int)
      requires Valid()
      modifies this`wire, this`inbox, this`winBufPos, this`model, winBuf
      ensures Valid()
      ensures (model, inbox, wire) == old(Transmission(model, inbox, wire))
      ensures ret == if model.phase == Failed then -1 else winBufPos
    {
      var i := 0;
      while i + 1 < winBufPos
        invariant 0 <= i <= LastSlot(model.view)
        invariant wire == old(wire) + model.view.slots[..i]
        modifies this`wire
      {
        LibSendTo(winBuf[i]);
        i := i + 1;
      }
      assert model.view.slots[..i] + [model.view.slots[i]] == Burst(model.view);
      assert old(wire) + model.view.slots[..i] + [model.view.slots[i]] == old(wire) + Burst(model.view);
      ret := UdpSendToEx(i);
      if ret < 0 {
        ret := -1;
      }
    }

    /** `slot` is the packet passed in: the last live one, or slot 0 of an empty window. */
    method UdpSendToEx(slot: nat) returns (ret: int)
      requires Valid() && slot == LastSlot(model.view)
      modifies this`wire, this`inbox, this`winBufPos, this`model, winBuf
      ensures Valid()
      ensures (model, inbox, wire) == old(Exchange(Begin(model), inbox, wire + [model.view.slots[slot]]))
      ensures ret == if model.phase == Failed then -1 else winBufPos
    {
      hide OneTurn;
      ghost var goal := Exchange(Begin(model), inbox, wire + [winBuf[slot]]);
      var arrAck := new bool[SEQUENCE_NUM_MAX](_ => false);
      var retryCnt: nat, waitForAck := RETRY_LIMIT, false;
      model := Begin(model);
      assert Tags(arrAck);
      while retryCnt > 0
        invariant Valid() && Tags(arrAck) && fresh(arrAck)
        invariant model.retry == retryCnt && model.waitForAck == waitForAck
        invariant model.phase == if retryCnt > 0 then Waiting else Failed
        invariant model.phase == Waiting && !waitForAck ==> slot == LastSlot(model.view)
        invariant goal == Exchange(model, inbox, wire + Pending(model))
        decreases retryCnt, |inbox|
      {
        var finished;
        ExchangeTurn(model, inbox, wire + Pending(model));
        finished, retryCnt, waitForAck, ret := Turn(slot, arrAck, retryCnt, waitForAck);
        if finished {
          break;
        }
      }
      assert wire + [] == wire;
      if retryCnt == 0 {
        ret := -1;
      }
    }

    /** The body of the loop in udp_sendtoEx. */
    method Turn(slot: nat, arrAck: array<bool>, retryCnt: nat, waiting: bool)
      returns (finished: bool, retries: nat, waitForAck: bool, ret: int)
      requires Valid() && Tags(arrAck) && model.phase == Waiting
      requires retryCnt == model.retry && waiting == model.waitForAck && (!waiting ==> slot == LastSlot(model.view))
      modifies this`wire, this`inbox, this`winBufPos, this`model, winBuf, arrAck
      ensures Valid() && Tags(arrAck)
      ensures (model, inbox, wire + Pending(model)) == old(OneTurn(model, inbox, wire + Pending(model)))
      ensures retries == model.retry && waitForAck == model.waitForAck
      ensures finished || retries == 0 <==> model.phase != Waiting
      ensures finished ==> retries == retryCnt
      ensures finished ==> ret == if model.phase == Failed then -1 else winBufPos
      ensures !finished && retries == 0 ==> model.phase == Failed
      ensures model.phase == Waiting && !waitForAck ==> slot == LastSlot(model.view)
    {
      hide OnTimeOut, OnAck, OnNack;
      finished, retries, waitForAck, ret := false, retryCnt, waiting, 0;
      if !waiting {
        LibSendTo(winBuf[slot]);
      } else {
        assert wire + [] == wire;
      }
      var a := LibRecvFrom();
      if a.TimedOut? {
        retries := OnSilence(arrAck, retryCnt);
      } else {
        finished, waitForAck, ret := TakeReply(a.frame, arrAck, waiting);
      }
    }

    /** What udp_sendtoEx does when lib_recvfrom timed out. */
    method OnSilence(arrAck: array<bool>, retryCnt: nat) returns (retries: nat)
      requires Valid() && Tags(arrAck) && model.phase == Waiting && retryCnt == model.retry
      modifies this`wire, this`model, arrAck
      ensures Valid() && Tags(arrAck) && retries == model.retry
      ensures model.view.(acked := []) == old(model.view.(acked := [])) && model.waitForAck == old(model.waitForAck)
      ensures model.retry == old(model.retry) - 1 && model.phase == if retries > 0 then Waiting else Failed
      ensures model == old(OnTimeOut(model).0) && wire + Pending(model) == old(wire + OnTimeOut(model).1)
    {
      retries := retryCnt - 1;
      ResendAllWinPackets();
      if retries == 0 {
        SendSpecialRequest();
      }
      ClearFrom(0, arrAck);
      assert arrAck[..] == NoAcks();
      model := OnTimeOut(model).0;
    }

    /** The branches of udp_sendtoEx on the type of a datagram. */
    method TakeReply(udp: Frame, arrAck: array<bool>, waiting: bool)
      returns (finished: bool, waitForAck: bool, ret: int)
      requires Valid() && Tags(arrAck) && model.phase == Waiting && waiting == model.waitForAck
      modifies this`wire, this`winBufPos, this`model, winBuf, arrAck
      ensures Valid() && Tags(arrAck)
      ensures model == old(OnArrival(model, Datagram(udp)).0)
      ensures wire + Pending(model) == old(wire + OnArrival(model, Datagram(udp)).1)
      ensures finished <==> model.phase != Waiting
      ensures waitForAck == model.waitForAck && model.retry == old(model.retry)
      ensures !finished && !waitForAck ==> model == old(model)
      ensures finished ==> ret == if model.phase == Failed then -1 else winBufPos
    {
      hide Remove, OnAck;
      finished, waitForAck, ret := false, waiting, 0;
      if udp.ackType == Ack {
        finished, waitForAck, ret := TakeAck(udp.seqNum, arrAck, waiting);
      } else if udp.ackType == Nack || udp.ackType == Sack {
        ret := RemovePacketsFromWin(Low5(udp.seqNum - 1), arrAck);
        finished := true;
        model := model.(phase := Idle);
      } else if udp.seqNum == Low5(lastSeq + 1) {
        SendAck(udp.seqNum, Ack);
        waitForAck := true;
        model := model.(waitForAck := true);
      }
    }

    method TakeAck(num: SeqNum, arrAck: array<bool>, waiting: bool)
      returns (finished: bool, waitForAck: bool, ret: int)
      requires Valid() && Tags(arrAck) && model.phase == Waiting && waiting == model.waitForAck
      modifies this`winBufPos, this`model, winBuf, arrAck
      ensures Valid() && Tags(arrAck)
      ensures model == old(OnAck(model, num))
      ensures finished <==> model.phase != Waiting
      ensures waitForAck == model.waitForAck && model.retry == old(model.retry)
      ensures !finished ==> waitForAck
      ensures finished ==> ret == if model.phase == Failed then -1 else winBufPos
    {
      hide Remove, Mark, AckRun;
      var tmp, biggest := GetMaxSeq(num, arrAck);
      if tmp == -1 {
        model := model.(phase := Failed);
        return true, waiting, -1;
      }
      if tmp == 1 {
        var left := RemovePacketsFromWin(biggest, arrAck);
        if left == 0 {
          model := model.(phase := Idle);
          return true, waiting, 0;
        }
      }
      model := model.(waitForAck := true);
      return false, true, 0;
    }

    // ----- giving payloads to the window -----

    method CopyToWinBuf(buf: Payload) returns (ret: int)
      requires Valid()
      modifies this`wire, this`inbox, this`winBufPos, this`seqNo, this`model, this`stamped, this`skipped, winBuf
      ensures Valid()
      ensures (model, inbox, wire) == old(CopyIn(model, inbox, wire, buf))
      ensures ret < 0 <==> model.phase == Failed
      ensures stamped == old(stamped) + if old(winBufPos) < wSize then [buf] else []
      ensures skipped == old(skipped) + if old(winBufPos) < wSize then [] else [buf]
    {
      hide Transmission;
      if winBufPos < wSize {
        StoreInWinBuf(buf);
      } else {
        skipped := skipped + [buf];
      }
      if winBufPos == wSize {
        ret := SendAllWinPackets();
      } else {
        ret := 1;
        model := model.(phase := Idle);
      }
    }

    method StoreInWinBuf(buf: Payload)
      requires Valid() && winBufPos < wSize
      modifies this`winBufPos, this`seqNo, this`model, this`stamped, winBuf
      ensures Valid() && model == old(Stamp(model, buf)) && stamped == old(stamped) + [buf]
    {
      var udp := AddUdpHeader(buf);
      winBuf[winBufPos] := udp;
      winBufPos := winBufPos + 1;
      model := Stamp(model, buf);
    }

    /** sock_sendtoEx with flag 0: the call used for the first message of a transfer. When it succeeds
        the window is empty. */
    method SockSendToEx(buf: Payload) returns (ret: int)
      requires Valid()
      modifies this`wire, this`inbox, this`winBufPos, this`seqNo, this`model, this`stamped, this`skipped, winBuf
      ensures Valid() && (ret == 0 || ret == -1)
      ensures ret == 0 ==> winBufPos == 0
      ensures ret == -1 <==> model.phase == Failed
      ensures stamped == old(stamped) + if old(winBufPos) < wSize then [buf] else []
      ensures Done() == old(Perform(Work(model, inbox, wire, []), MessageCommands(buf))).(keep := [])
    {
      hide CopyIn, Drained, Perform, MessageCommands;
      MessageTurn(Work(model, inbox, wire, []), buf);
      ret := CopyToWinBuf(buf);
      if ret < 0 {
        return -1;
      }
      ret := DrainWindow();
      ret := if ret >= 0 then 0 else -1;
    }

    /** The loop that both sock_sendtoEx and send_file end with; it stops at a result of 0 or less. */
    method DrainWindow() returns (ret: int)
      requires Valid()
      modifies this`wire, this`inbox, this`winBufPos, this`model, winBuf
      ensures Valid() && (model, inbox, wire) == old(Drained(model, inbox, wire))
      ensures ret == if model.phase == Failed then -1 else 0
      decreases |inbox|
    {
      hide Transmission;
      ghost var goal := Drained(model, inbox, wire);
      var again := true;
      ret := 0;
      while again
        invariant Valid()
        invariant goal == if again then Drained(model, inbox, wire) else (model, inbox, wire)
        invariant !again ==> ret == if model.phase == Failed then -1 else 0
        decreases again, |inbox|
      {
        ret := SendAllWinPackets();
        if ret <= 0 {
          break;
        }
        again := winBufPos > 0;
      }
    }

    /** What one fread of send_file brings. */
    static lemma NextChunk(file: seq<Byte>, at: nat, chunks: seq<Payload>, n: nat)
      requires at <= |file| && n <= |chunks| && chunks[n..] == Chunks(file[at..])
      ensures var cnt := if |file| - at < BUFFER_LENGTH then |file| - at else BUFFER_LENGTH;
              && n < |chunks| && chunks[n] == chunks[n..][0] == Padded(file[at..at + cnt])
              && chunks[n..][1..] == chunks[n + 1..] && chunks[..n + 1] == chunks[..n] + [chunks[n]]
              && (cnt < BUFFER_LENGTH ==> n + 1 == |chunks|)
              && (cnt == BUFFER_LENGTH ==> chunks[n + 1..] == Chunks(file[at + cnt..]))
    {
      hide Chunks;
      var cnt := if |file| - at < BUFFER_LENGTH then |file| - at else BUFFER_LENGTH;
      FirstChunk(file[at..]);
      assert file[at..][..cnt] == file[at..at + cnt] && file[at..][cnt..] == file[at + cnt..];
      assert chunks[n..][1..] == chunks[n + 1..];
    }

    /** send_file, for a file that can be opened. It returns -1 in every case: a call that empties the
        window returns 0, and that ends the last loop with a failure as well. */
    method SendFile(file: seq<Byte>) returns (ret: int)
      requires Valid()
      modifies this`wire, this`inbox, this`winBufPos, this`seqNo, this`model, this`stamped, this`skipped, winBuf
      ensures Valid() && ret == -1
      ensures var w, chunks := old(Perform(Work(model, inbox, wire, []), FileCommands(Chunks(file)))), Chunks(file);
              && Done() == w.(keep := [])
              && |w.keep| <= |chunks| && (model.phase != Failed ==> |w.keep| == |chunks|)
              && stamped == old(stamped) + Pick(chunks[..|w.keep|], w.keep)
              && skipped == old(skipped) + Pick(chunks[..|w.keep|], Opposite(w.keep))
      ensures model.phase != Failed ==> (stamped == old(stamped) + Chunks(file) <==> skipped == old(skipped))
    {
      hide CopyIn, Perform, FileCommands, Drained, Chunks, Padded, Pick, Opposite;
      ghost var chunks := Chunks(file);
      ghost var commands := FileCommands(chunks);
      ghost var goal := Perform(Work(model, inbox, wire, []), commands);
      ghost var keep: seq<bool> := [];
      var at, eof := 0, false;
      assert file[0..] == file && chunks[0..] == chunks && commands[0..] == commands;
      NothingPicked(chunks);
      while !eof
        invariant Valid() && (|keep| > 0 ==> model.phase != Failed)
        invariant 0 <= at <= |file| && |keep| <= |chunks| && (eof ==> 0 < |keep| == |chunks|)
        invariant !eof ==> chunks[|keep|..] == Chunks(file[at..])
        invariant goal == Perform(Work(model, inbox, wire, keep), commands[|keep|..])
        invariant stamped == old(stamped) + Pick(chunks[..|keep|], keep)
        invariant skipped == old(skipped) + Pick(chunks[..|keep|], Opposite(keep))
        decreases |file| - at, !eof
      {
        var cnt := if |file| - at < BUFFER_LENGTH then |file| - at else BUFFER_LENGTH;
        var buf := Padded(file[at..at + cnt]);
        ghost var n := |keep|;
        NextChunk(file, at, chunks, n);
        FileTurn(Work(model, inbox, wire, keep), chunks, n);
        OneMoreChunk(chunks, n, keep, winBufPos < wSize);
        keep := keep + [winBufPos < wSize];
        at := at + cnt;
        eof := cnt < BUFFER_LENGTH;
        ret := CopyToWinBuf(buf);
        if ret < 0 {
          Counted(old(stamped), old(skipped), chunks, keep);
          return -1;
        }
      }
      FileTurn(Work(model, inbox, wire, keep), chunks, |keep|);
      ret := DrainWindow();
      assert goal == Work(model, inbox, wire, keep);
      if ret <= 0 {
        ret := -1;
      }
      Counted(old(stamped), old(skipped), chunks, keep);
    }

    /** What the sending calls have done, without the flags of a particular call. */
    ghost function Done(): Work
      reads this
    {
      Work(model, inbox, wire, [])
    }

    static lemma NothingPicked(chunks: seq<Payload>)
      ensures Pick(chunks[..0], []) == [] && Pick(chunks[..0], Opposite([])) == []
    {
    }

    static lemma OneMoreChunk(chunks: seq<Payload>, n: nat, keep: seq<bool>, k: bool)
      requires n == |keep| < |chunks|
      ensures Pick(chunks[..n + 1], keep + [k]) == Pick(chunks[..n], keep) + if k then [chunks[n]] else []
      ensures Pick(chunks[..n + 1], Opposite(keep + [k])) ==
              Pick(chunks[..n], Opposite(keep)) + if k then [] else [chunks[n]]
    {
      hide Pick, Opposite;
      assert chunks[..n + 1] == chunks[..n] + [chunks[n]];
      PickOneMore(chunks[..n], keep, chunks[n], k);
      OppositeOneMore(keep, k);
      PickOneMore(chunks[..n], Opposite(keep), chunks[n], !k);
    }

    /** All chunks were stamped exactly when none was passed over. */
    static lemma Counted(was: seq<Payload>, over: seq<Payload>, chunks: seq<Payload>, keep: seq<bool>)
      requires |keep| <= |chunks|
      ensures |keep| == |chunks| ==>
              (was + Pick(chunks[..|keep|], keep) == was + chunks <==>
                 over + Pick(chunks[..|keep|], Opposite(keep)) == over)
    {
      hide Pick, Opposite;
      if |keep| == |chunks| {
        assert chunks[..|keep|] == chunks;
        var kept, left := Pick(chunks, keep), Pick(chunks, Opposite(keep));
        PickOrNot(chunks, keep);
        PickAll(chunks, keep);
        assert |over + left| == |over| ==> left == [] && over + left == over;
        assert |was + kept| == |was| + |kept|;
      }
    }

    // ----- receiving -----

    ghost function Hearing(): Receiver
      reads this
    {
      Receiver(lastSeq, inbox, wire, accepted)
    }

    /** chk_seqEx: 0 for the packet that comes next, -1 for any other frame. */
    method ChkSeqEx(udp: Frame) returns (ret: int)
      requires Valid()
      modifies this`lastSeq, this`wire, this`model
      ensures Valid() && model == old(model).(lastSeq := lastSeq)
      ensures var v := old(Check(lastSeq, udp));
              lastSeq == v.lastSeq && wire == old(wire) + v.reply && ret == if v.accepted then 0 else -1
    {
      ret := -1;
      if lastSeq == -1 {
        lastSeq := Low5(udp.seqNum - 1);
      }
      if udp.ackType == Request {
        if Low5(lastSeq + 1) != udp.seqNum {
          SendAck(lastSeq + 1, Nack);
        } else {
          SendAck(lastSeq + 1, Ack);
          lastSeq := Low5(lastSeq + 1);
          ret := 0;
        }
      } else if udp.ackType == Sack {
        SendAck(lastSeq + 1, Sack);
      }
      model := model.(lastSeq := lastSeq);
      assert ret == -1 && udp.ackType != Request && udp.ackType != Sack ==> wire == old(wire) + [];
    }

    /** sock_recvfrom without handshake. `done` is false when it is still waiting at the end of all that
        comes in; otherwise `buf` holds the first `length` bytes of the payloads taken. */
    method SockRecvFrom(length: nat) returns (done: bool, buf: seq<Byte>)
      requires Valid() && length > 0
      modifies this`lastSeq, this`wire, this`inbox, this`accepted, this`model
      ensures Valid() && model == old(model).(lastSeq := lastSeq)
      ensures Hearing() == old(Listen(Hearing(), hsData, |accepted| + Needed(length)))
      ensures old(accepted) <= accepted && (done <==> |accepted| == |old(accepted)| + Needed(length))
      ensures done ==> buf == Assembled(accepted[|old(accepted)|..], length)
    {
      hide Listen, Hear, Assembled, Needed;
      ghost var before, goal := |accepted|, |accepted| + Needed(length);
      ghost var end := Listen(Hearing(), hsData, goal);
      ghost var k, bytes := 0, 0;
      var left: int := length;
      buf := [];
      NeededLeft(length, 0);
      Nothing(accepted);
      while left > 0
        invariant Valid() && model == old(model).(lastSeq := lastSeq)
        invariant left == length - BUFFER_LENGTH * k && |accepted| == before + k && old(accepted) <= accepted
        invariant bytes == if left > 0 then BUFFER_LENGTH * k else length
        invariant (left > 0 ==> k < Needed(length)) && (left <= 0 ==> k == Needed(length)) && k == Needed(bytes)
        invariant end == Listen(Hearing(), hsData, goal)
        invariant buf == Assembled(accepted[before..], bytes)
        decreases |inbox|
      {
        ListenTurn(Hearing(), hsData, goal);
        if inbox == [] {
          return false, buf;
        }
        ghost var taken := accepted;
        var got, data := HearOne();
        if got {
          var n := if left < BUFFER_LENGTH then left else BUFFER_LENGTH;
          AssembledTaken(before, taken, bytes, data, n);
          NeededLeft(length, k + 1);
          buf := buf + data[..n];
          left := left - BUFFER_LENGTH;
          k, bytes := k + 1, bytes + n;
        } else {
          assert accepted == taken;
        }
      }
      ListenTurn(Hearing(), hsData, goal);
      done := true;
    }

    static lemma Nothing(taken: seq<Payload>)
      ensures Needed(0) == 0 && Assembled(taken[|taken|..], 0) == []
    {
    }

    /** One turn of the loop of sock_recvfrom up to the check of the sequence number. */
    method HearOne() returns (got: bool, data: Payload)
      requires Valid() && inbox != []
      modifies this`lastSeq, this`wire, this`inbox, this`accepted, this`model
      ensures Valid() && model == old(model).(lastSeq := lastSeq)
      ensures Hearing() == old(Hear(Hearing(), hsData))
      ensures accepted == old(accepted) + if got then [data] else []
    {
      got, data := false, hsData;
      var a := LibRecvFrom();
      if a.TimedOut? {
        return;
      }
      if a.frame.ackType == Handshake {
        LibSendTo(Frame(0, Request, hsData));
        return;
      }
      var ret := ChkSeqEx(a.frame);
      if ret == 0 {
        got, data := true, a.frame.data;
        accepted := accepted + [data];
      }
    }

    /** The bookkeeping of recv_file after one more packet. */
    static lemma TookPacket(before: nat, k: nat, taken: seq<Payload>, now: seq<Payload>, len: nat, left: nat,
                            written: seq<Byte>, buf: seq<Byte>)
      requires |taken| == before + k && |now| == |taken| + 1 && taken <= now
      requires 0 < left == len - BUFFER_LENGTH * k
      requires k == Needed(len - left) && written == Assembled(taken[before..], len - left)
      requires var n := if left > BUFFER_LENGTH then BUFFER_LENGTH else left;
               Needed(n) == 1 && buf == Assembled(now[|taken|..], n)
      ensures var left' := if left > BUFFER_LENGTH then left - BUFFER_LENGTH else 0;
              && (left' > 0 ==> k + 1 < Needed(len) && left' == len - BUFFER_LENGTH * (k + 1))
              && (left' == 0 ==> k + 1 == Needed(len))
              && k + 1 == Needed(len - left') && written + buf == Assembled(now[before..], len - left')
    {
      hide Assembled, Needed;
      var n := if left > BUFFER_LENGTH then BUFFER_LENGTH else left;
      AssembledOne(now, before + k, n);
      assert now == taken + [now[before + k]];
      AssembledTaken(before, taken, len - left, now[before + k], n);
      NeededLeft(len, k + 1);
    }

    /** recv_file: packet by packet until `len` bytes are written. */
    method RecvFile(len: nat) returns (done: bool, written: seq<Byte>)
      requires Valid()
      modifies this`lastSeq, this`wire, this`inbox, this`accepted, this`model
      ensures Valid() && model == old(model).(lastSeq := lastSeq)
      ensures Hearing() == old(Listen(Hearing(), hsData, |accepted| + Needed(len)))
      ensures old(accepted) <= accepted && (done <==> |accepted| == |old(accepted)| + Needed(len))
      ensures done ==> written == Assembled(accepted[|old(accepted)|..], len)
    {
      hide Listen, Hear, Assembled, Needed;
      ghost var before, goal := |accepted|, |accepted| + Needed(len);
      ghost var end := Listen(Hearing(), hsData, goal);
      ghost var k := 0;
      var left: int := len;
      written := [];
      NeededLeft(len, 0);
      Nothing(accepted);
      while left > 0
        invariant Valid() && model == old(model).(lastSeq := lastSeq)
        invariant 0 <= left <= len && |accepted| == before + k && old(accepted) <= accepted
        invariant left > 0 ==> k < Needed(len) && left == len - BUFFER_LENGTH * k
        invariant left == 0 ==> k == Needed(len)
        invariant end == Listen(Hearing(), hsData, goal)
        invariant k == Needed(len - left) && written == Assembled(accepted[before..], len - left)
        decreases left
      {
        var recvLen := if left > BUFFER_LENGTH then BUFFER_LENGTH else left;
        ListenOn(Hearing(), hsData, |accepted| + 1, goal);
        NeededLeft(recvLen, 1);
        ghost var taken := accepted;
        var ok, buf := SockRecvFrom(recvLen);
        if !ok {
          ListenTurn(Hearing(), hsData, goal);
          return false, written;
        }
        TookPacket(before, k, taken, accepted, len, left, written, buf);
        written := written + buf;
        left := left - recvLen;
        k := k + 1;
      }
      ListenTurn(Hearing(), hsData, goal);
      done := true;
    }
  }
}
