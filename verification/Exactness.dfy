/** The bound on the window is exact: two families of runs with larger windows. */
module Exactness {
  import opened Protocol
  import opened RouterSpec
  import opened SenderSpec
  import opened Link
  import opened RunPieces
  import Safety
  import Refinement

  // ----- a window of 16 to 31 packets -----

  /** The first packet of a full window is dropped; the NACK that the second one provokes is held. */
  lemma Opening(s0: State, s: State) returns (t: State)
    requires s0.Valid() && Settled(s, 32) && Reaches(s0, s) && 16 <= s.tx.view.count == s.tx.view.Size() <= 31
    requires s.tx.phase == Idle && s.lastSeq == 31 && s.router == New() && s.toRouter == [] && s.toSender == []
    requires s.stamped != []
    ensures Reaches(s0, t) && t == s.(tx := Begin(s.tx), router := t.router) && t.Valid()
    ensures t.router.slot == Held(Reply(32, Nack), Peer1)
  {
    hide Reaches;
    ReachesNext(s0, s, Transmit);
    var s1 := Next(s, Transmit);
    assert s1.toRouter == s.tx.view.Live();
    var s2 := DropOne(s0, s1);
    assert s2.toRouter[0] == s.tx.view.slots[1];
    var s3 := PassOne(s0, s2);
    assert s3.back == [Reply(32, Nack)];
    ReachesNext(s0, s3, RouteReply(true, false));
    var s4 := Next(s3, RouteReply(true, false));
    assert s4.back == [] && s4.toSender == [];
    t := DropAll(s0, s4);
  }

  lemma ResentFrames(s: State)
    requires Settled(s, 32) && 16 <= s.tx.view.count == s.tx.view.Size() <= 31 && s.lastSeq == 31 && s.toRouter == []
    requires s.tx.phase == Waiting && s.tx.retry == RETRY_LIMIT && !s.tx.waitForAck
    ensures var s1, w, slots := Next(s, TimeOut), s.tx.view.count, s.tx.view.slots;
            && s1 == s.(tx := OnTimeOut(s.tx).0, toRouter := slots[..w - 1] + [slots[w - 2], slots[w - 1]])
            && (forall j: nat | j < w :: slots[j].ackType == Request && slots[j].seqNum == Low5(s.lastSeq + 1 + j))
            && Low5(s.lastSeq + w - 1) == w - 2 && Low5(s.lastSeq + w) == Low5(w - 1) == w - 1
  {
  }

  /** A timeout sends the whole window again: all of it is accepted, and every ACK is dropped. */
  lemma Resent(s0: State, s: State) returns (t: State)
    requires s0.Valid() && Settled(s, 32) && Reaches(s0, s) && 16 <= s.tx.view.count == s.tx.view.Size() <= 31
    requires s.tx.phase == Waiting && s.tx.retry == RETRY_LIMIT && !s.tx.waitForAck
    requires s.lastSeq == 31 && s.toRouter == [] && s.router.slot.Held? && s.router.slot.dest == Peer1
    ensures t.Valid() && Reaches(s0, t) && t.router.slot == s.router.slot
    ensures t == s.(tx := OnTimeOut(s.tx).0, router := t.router, lastSeq := s.tx.view.count - 1, accepted := t.accepted)
    ensures |t.accepted| == |s.accepted| + s.tx.view.count
  {
    hide Reaches, Next, OnTimeOut, Low5, Numbered;
    var w := s.tx.view.count;
    var slots := s.tx.view.slots;
    ReachesNext(s0, s, TimeOut);
    var s1 := Next(s, TimeOut);
    ResentFrames(s);
    var s2 := AcceptMany(s0, s1, w - 1);
    assert s2.toRouter == [slots[w - 2], slots[w - 1]];
    var s3 := DropOne(s0, s2);
    assert s3.toRouter == [slots[w - 1]];
    t := AcceptOne(s0, s3);
    assert t.toRouter == [];
  }

  /** One more timeout, and a duplicate provokes a NACK for all; it overtakes the first NACK. */
  lemma Overtaking(s0: State, s: State) returns (t: State)
    requires s0.Valid() && Settled(s, 32) && Reaches(s0, s) && 16 <= s.tx.view.count == s.tx.view.Size() <= 31
    requires s.tx.phase == Waiting && s.tx.retry > 1 && s.lastSeq == s.tx.view.count - 1
    requires s.toRouter == [] && s.router.slot == Held(Reply(32, Nack), Peer1) && s.toSender == []
    ensures t.Valid() && Reaches(s0, t)
    ensures t == s.(tx := OnTimeOut(s.tx).0, router := New(),
                    toSender := [Reply(s.tx.view.count, Nack), Reply(32, Nack)])
  {
    hide Reaches;
    var w := s.tx.view.count;
    ReachesNext(s0, s, TimeOut);
    var s1 := Next(s, TimeOut);
    assert s1.toRouter[0] == s.tx.view.slots[0];
    var s2 := PassOne(s0, s1);
    assert s2.back == [Reply(w, Nack)];
    var s3 := DropAll(s0, s2);
    ReachesNext(s0, s3, RouteReply(false, false));
    t := Next(s3, RouteReply(false, false));
    assert t.back == [] && t.toSender == [Reply(w, Nack), Reply(32, Nack)];
  }

  /** A window of 16 to 31 packets is too large: here is a clean run in which the sender discards
      packets that the receiver never got. A stale NACK, overtaken in the router by one that empties
      the window, has the number of a packet in the next window. */
  lemma LargeWindowForgets(memory: seq<Frame>) returns (t: State)
    requires 17 <= |memory| <= 32
    ensures Reaches(Init(memory, 31), t) && Departed(t) > |t.accepted|
    ensures Settled(t, 64) && t.tx.phase == Idle && t.router == New() && t.toSender == []
    ensures t.lastSeq == |memory| - 2 && |t.accepted| == |memory| < |t.stamped| && t.stamped[|memory|] == ZeroData()
    ensures t.tx.view.Size() == |memory| - 1
  {
    hide Reaches, Next;
    var s0, w := Init(memory, 31), |memory| - 1;
    var s := Header(memory);
    s := Fill(s0, s, 32, ZeroData(), w);
    s := Opening(s0, s);
    s := Resent(s0, s);
    s := Overtaking(s0, s);
    s := TakeNack(s0, s, 32, w);
    s := Fill(s0, s, 32 + w, ZeroData(), w);
    s := Begun(s0, s);
    t := TakeNack(s0, s, 32 + w, 32 - w);
  }

  /** That run goes on to a receiver that passes on a wrong payload: 32 packets after the one it waits
      for comes another with the same number. */
  lemma LargeWindowCorrupts(memory: seq<Frame>) returns (t: State)
    requires 17 <= |memory| <= 32
    ensures Reaches(Init(memory, 31), t) && !(t.accepted <= t.stamped)
  {
    hide Reaches;
    var s0, w := Init(memory, 31), |memory| - 1;
    var other: Payload := seq(BUFFER_LENGTH, _ => 1);
    var s := LargeWindowForgets(memory);
    s := DropAll(s0, s);
    s := Fill(s0, s, 64, ZeroData(), w);
    s := Refused(s0, s, w);
    s := TakeNack(s0, s, 64, w);
    s := Fill(s0, s, 64 + w, other, w);
    ReachesNext(s0, s, Transmit);
    s := Next(s, Transmit);
    assert s.toRouter[0] == s.tx.view.Live()[0];
    t := PassOne(s0, s);
    assert t.accepted[|memory|] == other && t.stamped[|memory|] == ZeroData();
    assert other[0] != ZeroData()[0];
  }

  // ----- a window of 32 packets -----

  /** The base packet of a full window of 32 is dropped; the NACK that the next one provokes comes back. */
  lemma BaseLost(s0: State, s: State) returns (t: State)
    requires s0.Valid() && Settled(s, 32) && Reaches(s0, s) && s.tx.view.count == s.tx.view.Size() == 32
    requires s.tx.phase == Idle && s.lastSeq == 31 && s.router == New() && s.toRouter == [] && s.toSender == []
    requires s.stamped != []
    ensures t.Valid() && Reaches(s0, t) && t == s.(tx := Begin(s.tx), toSender := [Reply(32, Nack)])
  {
    hide Reaches;
    ReachesNext(s0, s, Transmit);
    var s1 := Next(s, Transmit);
    assert s1.toRouter == s.tx.view.Live();
    var s2 := DropOne(s0, s1);
    assert s2.toRouter[0] == s.tx.view.slots[1];
    var s3 := PassOne(s0, s2);
    assert s3.back == [Reply(32, Nack)];
    ReachesNext(s0, s3, RouteReply(false, false));
    var s4 := Next(s3, RouteReply(false, false));
    assert s4.back == [] && s4.toSender == [Reply(32, Nack)];
    t := DropAll(s0, s4);
  }

  /** With 32 packets no stale message is needed: a NACK for the base packet has the number of the last
      packet in the window, and takes all of it out. */
  lemma FullRangeForgets(memory: seq<Frame>) returns (t: State)
    requires |memory| == SEQUENCE_NUM_MAX + 1
    ensures Reaches(Init(memory, 31), t) && Departed(t) > |t.accepted|
    ensures Settled(t, 64) && t.tx.phase == Idle && t.tx.view.count == 0 && t.tx.view.Size() == 32
    ensures t.router == New() && t.toRouter == [] && t.lastSeq == 31
    ensures |t.accepted| == 1 && |t.stamped| == 33 && t.stamped[1] == ZeroData()
  {
    hide Reaches, Next;
    var s0 := Init(memory, 31);
    var s := Header(memory);
    s := Fill(s0, s, 32, ZeroData(), 32);
    s := BaseLost(s0, s);
    t := TakeNack(s0, s, 32, 32);
  }

  lemma FullRangeCorrupts(memory: seq<Frame>) returns (t: State)
    requires |memory| == SEQUENCE_NUM_MAX + 1
    ensures Reaches(Init(memory, 31), t) && !(t.accepted <= t.stamped)
  {
    hide Reaches;
    var s0 := Init(memory, 31);
    var other: Payload := seq(BUFFER_LENGTH, _ => 1);
    var s := FullRangeForgets(memory);
    s := Fill(s0, s, 64, other, 32);
    ReachesNext(s0, s, Transmit);
    s := Next(s, Transmit);
    assert s.toRouter[0] == s.tx.view.Live()[0];
    t := PassOne(s0, s);
    assert t.accepted[1] == other && t.stamped[1] == ZeroData();
    assert other[0] != ZeroData()[0];
  }

  // ----- the bound -----

  /** Whether every clean run with a window of `size`, from whatever memory and first number, has
      delivered a prefix of what was stamped and kept what was not accepted. */
  ghost predicate Delivers(size: nat)
    requires 1 <= size <= SEQUENCE_NUM_MAX
  {
    forall memory: seq<Frame>, first: nat, t: State |
      |memory| == size + 1 && first < UINT_RANGE && Reaches(Init(memory, first), t) :: t.accepted <= t.stamped
  }

  ghost predicate Keeps(size: nat)
    requires 1 <= size <= SEQUENCE_NUM_MAX
  {
    forall memory: seq<Frame>, first: nat, t: State |
      |memory| == size + 1 && first < UINT_RANGE && Reaches(Init(memory, first), t) :: Departed(t) <= |t.accepted|
  }

  /** THE BOUND IS EXACT. Among the windows no larger than the range of numbers, those for which every
      clean run delivers correctly, and those for which no clean run makes the sender discard a packet
      that was not accepted, are the ones of at most 15 packets. */
  lemma SafeWindowExact(size: nat)
    requires 1 <= size <= SEQUENCE_NUM_MAX
    ensures Delivers(size) <==> size <= Refinement.SAFE_WINDOW
    ensures Keeps(size) <==> size <= Refinement.SAFE_WINDOW
  {
    hide Next, Link.Run, Clean;
    if size <= Refinement.SAFE_WINDOW {
      forall memory: seq<Frame>, first: nat, t: State |
        |memory| == size + 1 && first < UINT_RANGE && Reaches(Init(memory, first), t)
        ensures t.accepted <= t.stamped && Departed(t) <= |t.accepted|
      {
        var events :| Clean(Init(memory, first), events) && Link.Run(Init(memory, first), events) == t;
        Safety.NothingForgotten(memory, first, events);
        Safety.DeliveredIsPrefix(memory, first, events);
      }
    } else {
      var memory := seq(size + 1, _ => Reply(0, Request));
      var t, t';
      if size == SEQUENCE_NUM_MAX {
        t := FullRangeForgets(memory);
        t' := FullRangeCorrupts(memory);
      } else {
        t := LargeWindowForgets(memory);
        t' := LargeWindowCorrupts(memory);
      }
      assert Reaches(Init(memory, 31), t) && Reaches(Init(memory, 31), t');
    }
  }
}
