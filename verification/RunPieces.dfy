/** Pieces of concrete runs, each leading from a state that a clean run reaches to another one. */
module RunPieces {
  import opened Protocol
  import opened RouterSpec
  import opened SenderSpec
  import opened Link

  /** The live packets are numbered from `b` on, and the counter stands behind the last of them. */
  ghost predicate Numbered(v: Window, b: nat) {
    && v.Valid()
    && forall k: nat | k < v.count :: v.slots[k].seqNum == Low5(b + k) && v.slots[k].ackType == Request
  }

  ghost predicate Settled(s: State, b: nat) {
    && s.Valid() && Numbered(s.tx.view, b) && s.tx.seqNo == b + s.tx.view.count < 1000
    && s.toReceiver == [] && s.back == []
  }

  lemma GiveOne(s0: State, s: State, b: nat, data: Payload) returns (t: State)
    requires s0.Valid() && Settled(s, b) && Reaches(s0, s) && b < 900
    requires MayGive(s)
    ensures Reaches(s0, t) && Settled(t, b) && t.tx.view.count == s.tx.view.count + 1
    ensures t == s.(tx := t.tx, stamped := t.stamped) && t.tx.phase == Idle && t.stamped == s.stamped + [data]
    ensures t.tx.view.Size() == s.tx.view.Size()
    ensures t.tx.view.Live() == s.tx.view.Live() + [Frame(Low5(s.tx.seqNo), Request, data)]
    ensures t.tx.view.slots[t.tx.view.count..] == s.tx.view.slots[t.tx.view.count..]
  {
    hide Reaches;
    ReachesNext(s0, s, Give(data));
    t := Next(s, Give(data));
  }

  /** The caller fills the window up to `goal` packets with copies of one payload. */
  lemma {:induction false} Fill(s0: State, s: State, b: nat, data: Payload, goal: nat) returns (t: State)
    requires s0.Valid() && Settled(s, b) && Reaches(s0, s) && b < 900
    requires s.tx.phase == Idle && s.stamped != [] && (|s.stamped| == 1 ==> s.tx.view.count == 0)
    requires s.tx.view.count <= goal <= s.tx.view.Size()
    ensures Reaches(s0, t) && Settled(t, b) && t.tx.view.count == goal && t.tx.view.Size() == s.tx.view.Size()
    ensures t == s.(tx := t.tx, stamped := t.stamped) && t.tx.phase == Idle
    ensures |t.stamped| == |s.stamped| + goal - s.tx.view.count
    ensures s.stamped <= t.stamped && forall k: nat | |s.stamped| <= k < |t.stamped| :: t.stamped[k] == data
    ensures forall k: nat | s.tx.view.count <= k < goal :: t.tx.view.Live()[k].data == data
    ensures s.tx.view.Live() <= t.tx.view.Live() && t.tx.view.slots[goal..] == s.tx.view.slots[goal..]
    decreases goal - s.tx.view.count
  {
    hide Reaches, Numbered;
    t := s;
    if s.tx.view.count < goal {
      var s1 := GiveOne(s0, s, b, data);
      t := Fill(s0, s1, b, data, goal);
      var k := s1.tx.view.count;
      assert s1.tx.view.slots[goal..] == s1.tx.view.slots[k..][goal - k..];
      assert s.tx.view.slots[goal..] == s.tx.view.slots[k..][goal - k..];
    }
  }

  /** The router drops everything in front of it. */
  lemma {:induction false} DropAll(s0: State, s: State) returns (t: State)
    requires s0.Valid() && s.Valid() && Reaches(s0, s)
    ensures t.Valid() && Reaches(s0, t) && t == s.(router := t.router, toRouter := []) && t.router.slot == s.router.slot
    ensures s.router.slot.Empty? ==> t.router == s.router
    decreases |s.toRouter|
  {
    if s.toRouter == [] {
      return s;
    }
    var e := RouteData(false, true);
    ReachesNext(s0, s, e);
    t := DropAll(s0, Next(s, e));
  }

  lemma DropOne(s0: State, s: State) returns (t: State)
    requires s0.Valid() && s.Valid() && Reaches(s0, s) && s.toRouter != []
    ensures t.Valid() && Reaches(s0, t)
    ensures t == s.(router := t.router, toRouter := s.toRouter[1..]) && t.router.slot == s.router.slot
    ensures s.router.slot.Empty? ==> t.router == s.router
  {
    ReachesNext(s0, s, RouteData(false, true));
    t := Next(s, RouteData(false, true));
  }

  /** One data packet goes through to the receiver, past a reply that the router holds or past nothing. */
  lemma PassOne(s0: State, s: State) returns (t: State)
    requires s0.Valid() && s.Valid() && Reaches(s0, s) && s.toRouter != [] && s.toReceiver == []
    requires HeldFor(s.router, Peer2) == []
    ensures t.Valid() && Reaches(s0, t) && t.router.slot == s.router.slot
    ensures s.router.slot.Empty? ==> t.router == s.router
    ensures var v := Check(s.lastSeq, s.toRouter[0]);
            t == s.(router := t.router, toRouter := s.toRouter[1..], lastSeq := v.lastSeq, back := s.back + v.reply,
                    accepted := if v.accepted then s.accepted + [s.toRouter[0].data] else s.accepted)
  {
    var s1 := Next(s, RouteData(false, false));
    ReachesNext(s0, s, RouteData(false, false));
    assert s1.toReceiver == [s.toRouter[0]];
    ReachesNext(s0, s1, Deliver);
    t := Next(s1, Deliver);
    assert t.toReceiver == [];
  }

  lemma AcceptOne(s0: State, s: State) returns (t: State)
    requires s0.Valid() && s.Valid() && Reaches(s0, s) && s.toRouter != [] && s.toReceiver == [] && s.back == []
    requires HeldFor(s.router, Peer2) == [] && s.lastSeq != -1
    requires s.toRouter[0].ackType == Request && s.toRouter[0].seqNum == Low5(s.lastSeq + 1)
    ensures t.Valid() && Reaches(s0, t) && t.router.slot == s.router.slot
    ensures s.router.slot.Empty? ==> t.router == s.router
    ensures t == s.(router := t.router, toRouter := s.toRouter[1..], lastSeq := Low5(s.lastSeq + 1),
                    accepted := t.accepted)
    ensures |t.accepted| == |s.accepted| + 1
  {
    hide Reaches;
    var s1 := PassOne(s0, s);
    assert s1.back == [Reply(s.lastSeq + 1, Ack)];
    ReachesNext(s0, s1, RouteReply(false, true));
    t := Next(s1, RouteReply(false, true));
    assert t.back == [];
  }

  /** The first `k` frames in front of the router are accepted one after the other; their ACKs are lost. */
  lemma {:induction false} AcceptMany(s0: State, s: State, k: nat) returns (t: State)
    requires s0.Valid() && s.Valid() && Reaches(s0, s) && k <= |s.toRouter| && s.toReceiver == [] && s.back == []
    requires HeldFor(s.router, Peer2) == [] && s.lastSeq != -1
    requires forall j: nat | j < k ::
               s.toRouter[j].ackType == Request && s.toRouter[j].seqNum == Low5(s.lastSeq + 1 + j)
    ensures t.Valid() && Reaches(s0, t) && t.router.slot == s.router.slot
    ensures s.router.slot.Empty? ==> t.router == s.router
    ensures t == s.(router := t.router, toRouter := s.toRouter[k..], lastSeq := Low5(s.lastSeq + k),
                    accepted := t.accepted)
    ensures |t.accepted| == |s.accepted| + k
    decreases k
  {
    hide Reaches, Next, Check, Low5;
    if k == 0 {
      assert Low5(s.lastSeq) == s.lastSeq by {
        SmallLow5(s.lastSeq);
      }
      return s;
    }
    var s1 := AcceptOne(s0, s);
    forall j: nat | j < k - 1
      ensures s1.toRouter[j].ackType == Request && s1.toRouter[j].seqNum == Low5(s1.lastSeq + 1 + j)
    {
      assert s1.toRouter[j] == s.toRouter[j + 1];
      Low5Sum(s.lastSeq + 1, 1 + j);
    }
    t := AcceptMany(s0, s1, k - 1);
    Low5Sum(s.lastSeq + 1, k - 1);
    assert s1.toRouter[k - 1..] == s.toRouter[k..];
  }

  lemma SmallLow5(n: int)
    requires 0 <= n < SEQUENCE_NUM_MAX
    ensures Low5(n) == n
  {
  }

  /** Packet 0, numbered 31, goes through alone, and so does its ACK. */
  lemma Header(memory: seq<Frame>) returns (t: State)
    requires 2 <= |memory| <= SEQUENCE_NUM_MAX + 1
    ensures Reaches(Init(memory, 31), t) && Settled(t, 32)
    ensures t.tx.phase == Idle && t.tx.view.count == 0 && t.tx.view.Size() == |memory| - 1
    ensures |t.stamped| == |t.accepted| == 1 && t.lastSeq == 31
    ensures t.router == New() && t.toRouter == [] && t.toSender == []
  {
    hide Reaches;
    var s0 := Init(memory, 31);
    ReachesSelf(s0);
    t := GiveOne(s0, s0, 31, ZeroData());
    t := Alone(s0, t);
  }

  lemma Alone(s0: State, s: State) returns (t: State)
    requires s0.Valid() && Settled(s, 31) && Reaches(s0, s) && s.tx.phase == Idle && s.tx.view.count == 1
    requires |s.stamped| == 1 && s.accepted == [] && s.lastSeq == -1
    requires s.router == New() && s.toRouter == [] && s.toSender == []
    ensures Reaches(s0, t) && Settled(t, 32) && t.tx.phase == Idle && t.tx.view.count == 0
    ensures t == s.(tx := t.tx, lastSeq := 31, accepted := t.accepted) && |t.accepted| == 1
    ensures t.tx.view.Size() == s.tx.view.Size()
  {
    hide Reaches, OnAck;
    ReachesNext(s0, s, Transmit);
    var s1 := Next(s, Transmit);
    assert s1.toRouter == [s.tx.view.slots[0]];
    var s2 := PassOne(s0, s1);
    assert s2.back == [Reply(31, Ack)] && s2.toRouter == [];
    ReachesNext(s0, s2, RouteReply(false, false));
    var s3 := Next(s2, RouteReply(false, false));
    assert s3.toSender == [Reply(31, Ack)] && s3.back == [];
    ReachesNext(s0, s3, TakeReply);
    t := Next(s3, TakeReply);
    FirstAcked(s3.tx);
    assert t.toSender == [] && t.toRouter == [];
  }

  lemma FirstAcked(tx: Sender)
    requires tx.Valid() && tx.view.count == 1 && !tx.view.acked[0]
    ensures var t := OnAck(tx, tx.view.slots[0].seqNum);
            t.view.count == 0 && t == tx.(view := t.view, phase := Idle)
  {
    var num := tx.view.slots[0].seqNum;
    assert tx.view.Live()[0].seqNum == num && Find(tx.view.Live(), num) == 0;
    var v := Mark(tx.view, num);
    assert v.acked[..1] == [true] && Leading([true]) == 1;
    assert v.Live()[0].seqNum == num && Find(v.Live(), num) == 0;
  }

  /** A NACK that the window answers to removes everything up to the packet it stands for. */
  lemma TakeNack(s0: State, s: State, b: nat, i: nat) returns (t: State)
    requires s0.Valid() && Settled(s, b) && Reaches(s0, s) && s.tx.phase == Waiting && s.toSender != []
    requires s.toSender[0].ackType == Nack && 0 < i <= s.tx.view.count && Low5(b + i) == s.toSender[0].seqNum
    ensures Reaches(s0, t) && Settled(t, b + i) && t.tx.view.count == s.tx.view.count - i && t.tx.phase == Idle
    ensures t == s.(tx := t.tx, toSender := s.toSender[1..]) && t.tx.view.Size() == s.tx.view.Size()
    ensures i == s.tx.view.count ==> t.tx.view.slots == s.tx.view.slots
  {
    hide Reaches;
    var v := s.tx.view;
    Low5Sum(b + i, -1);
    assert v.Live()[i - 1].seqNum == Low5(b + i - 1);
    forall j: nat | j < i - 1 ensures v.Live()[j].seqNum != Low5(b + i - 1) {
      Low5Injective(b + j, b + i - 1);
    }
    assert Find(v.Live(), Low5(b + i - 1)) == i - 1;
    ReachesNext(s0, s, TakeReply);
    t := Next(s, TakeReply);
    ShiftNumbered(v, b, i);
    assert s.toRouter + [] == s.toRouter;
  }

  lemma ShiftNumbered(v: Window, b: nat, i: nat)
    requires Numbered(v, b) && 0 < i <= v.count
    ensures Numbered(Shift(v, i), b + i)
  {
    var v' := Shift(v, i);
    forall k: nat | k < v'.count
      ensures v'.slots[k].seqNum == Low5(b + i + k) && v'.slots[k].ackType == Request
    {
      assert v'.slots[k] == v.slots[i + k];
    }
  }

  /** The first packet of a transmission is not the one expected: only the NACK comes back. */
  lemma Refused(s0: State, s: State, next: nat) returns (t: State)
    requires s0.Valid() && Settled(s, 64) && Reaches(s0, s) && s.tx.phase == Idle && s.stamped != []
    requires 0 < s.tx.view.count && 0 < next < SEQUENCE_NUM_MAX && s.lastSeq == next - 1
    requires s.router == New() && s.toRouter == [] && s.toSender == []
    ensures t.Valid() && Reaches(s0, t)
    ensures t == s.(tx := Begin(s.tx), toSender := [Reply(next, Nack)])
  {
    hide Reaches;
    ReachesNext(s0, s, Transmit);
    var s1 := Next(s, Transmit);
    assert s1.toRouter[0] == s.tx.view.slots[0];
    var s2 := PassOne(s0, s1);
    assert s2.back == [Reply(next, Nack)];
    ReachesNext(s0, s2, RouteReply(false, false));
    var s3 := Next(s2, RouteReply(false, false));
    assert s3.back == [] && s3.toSender == [Reply(next, Nack)];
    t := DropAll(s0, s3);
  }

  lemma Begun(s0: State, s: State) returns (t: State)
    requires s0.Valid() && s.Valid() && Reaches(s0, s) && s.tx.phase == Idle && s.stamped != []
    ensures t.Valid() && Reaches(s0, t) && t == s.(tx := Begin(s.tx), toRouter := t.toRouter)
    ensures forall b: nat :: Numbered(s.tx.view, b) ==> Numbered(t.tx.view, b)
  {
    ReachesNext(s0, s, Transmit);
    t := Next(s, Transmit);
  }
}
