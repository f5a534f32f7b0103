/** Runs in which a stale NACK finds no live packet with its number: with some content of the slot behind
    the live ones it empties the window, with any other it leaves a full window as it is. */
module StaleSlot {
  import opened Protocol
  import opened RouterSpec
  import opened SenderSpec
  import opened Link
  import opened RunPieces
  import Safety
  import WindowBuffer

  // ----- two NACKs for the same number -----

  /** The first two frames in front of the router are refused, and both NACKs come back. */
  lemma TwoBack(s0: State, s: State) returns (t: State)
    requires s0.Valid() && s.Valid() && Reaches(s0, s) && s.toReceiver == [] && s.back == [] && s.toSender == []
    requires s.router == New() && s.lastSeq != -1 && |s.toRouter| >= 2
    requires forall j: nat | j < 2 :: s.toRouter[j].ackType == Request && s.toRouter[j].seqNum != Low5(s.lastSeq + 1)
    ensures t.Valid() && Reaches(s0, t)
    ensures var nack := Reply(s.lastSeq + 1, Nack);
            t == s.(toRouter := [], toSender := [nack, nack])
  {
    hide Reaches, Low5;
    var nack := Reply(s.lastSeq + 1, Nack);
    var s1 := PassOne(s0, s);
    assert s1.back == [nack];
    ReachesNext(s0, s1, RouteReply(false, false));
    var s2 := Next(s1, RouteReply(false, false));
    assert s2.back == [] && s2.toSender == [nack];
    var s3 := PassOne(s0, s2);
    assert s3.back == [nack];
    ReachesNext(s0, s3, RouteReply(false, false));
    var s4 := Next(s3, RouteReply(false, false));
    assert s4.back == [] && s4.toSender == [nack, nack];
    t := DropAll(s0, s4);
  }

  /** A retransmission begins with two live packets. */
  lemma ResendStarts(s: State, b: nat)
    requires s.Valid() && Numbered(s.tx.view, b) && 1 <= s.tx.view.count <= 31 && s.toRouter == []
    requires s.tx.phase == Waiting && s.tx.retry > 1 && !s.tx.waitForAck
    ensures var s1 := Next(s, TimeOut);
            && s1 == s.(tx := OnTimeOut(s.tx).0, toRouter := s1.toRouter)
            && s1.tx.view.slots == s.tx.view.slots && s1.tx.view.count == s.tx.view.count && s1.tx.phase == Waiting
            && |s1.toRouter| >= 2
            && forall j: nat | j < 2 ::
                 s1.toRouter[j].ackType == Request && s1.toRouter[j].seqNum != Low5(b + s.tx.view.count)
  {
    var n, frames := s.tx.view.count, Next(s, TimeOut).toRouter;
    assert frames[0] == s.tx.view.slots[0] && frames[1] in s.tx.view.Live();
    Low5Injective(b, b + n);
    Low5Injective(b + 1, b + n);
  }

  lemma LiveBurst(s: State, b: nat)
    requires Settled(s, b) && 1 <= s.tx.view.count && s.tx.phase == Idle && s.toRouter == [] && s.stamped != []
    ensures var s1 := Next(s, Transmit);
            && s1 == s.(tx := Begin(s.tx), toRouter := s.tx.view.Live())
            && s1.tx.view.slots == s.tx.view.slots && s1.tx.view.count == s.tx.view.count && Numbered(s1.tx.view, b)
            && s1.tx.phase == Waiting && s1.tx.retry > 1 && !s1.tx.waitForAck && s1.tx.seqNo == s.tx.seqNo
            && forall j: nat | j < s.tx.view.count ::
                 s1.toRouter[j].ackType == Request && s1.toRouter[j].seqNum == Low5(b + j)
  {
    assert Burst(s.tx.view) == s.tx.view.Live();
  }

  /** All packets in the window are accepted, and two duplicates provoke two NACKs for the next one. */
  lemma TwiceNacked(s0: State, s: State, b: nat) returns (t: State)
    requires s0.Valid() && Settled(s, b) && Reaches(s0, s) && 1 <= s.tx.view.count <= 31 && s.tx.phase == Idle
    requires b >= 1 && s.lastSeq == Low5(b - 1) && s.router == New() && s.toRouter == [] && s.toSender == []
    requires s.stamped != []
    ensures t.Valid() && Reaches(s0, t) && t.router == New() && |t.accepted| == |s.accepted| + s.tx.view.count
    ensures var nack := Reply(b + s.tx.view.count, Nack);
            t == s.(tx := OnTimeOut(Begin(s.tx)).0, lastSeq := Low5(b + s.tx.view.count - 1), accepted := t.accepted,
                    toSender := [nack, nack])
    ensures Settled(t, b) && t.tx.phase == Waiting
    ensures t.tx.view.slots == s.tx.view.slots && t.tx.view.count == s.tx.view.count
  {
    hide Reaches, Next, OnTimeOut, Begin, Low5, Numbered;
    var k := s.tx.view.count;
    ReachesNext(s0, s, Transmit);
    var s1 := Next(s, Transmit);
    LiveBurst(s, b);
    forall j: nat | j < k ensures s1.toRouter[j].seqNum == Low5(s1.lastSeq + 1 + j) {
      Low5Sum(b - 1, 1 + j);
    }
    var s2 := AcceptMany(s0, s1, k);
    assert s2.toRouter == [];
    Low5Sum(b - 1, k);
    ReachesNext(s0, s2, TimeOut);
    var s3 := Next(s2, TimeOut);
    ResendStarts(s2, b);
    Low5Sum(b + k - 1, 1);
    t := TwoBack(s0, s3);
    StaysNumbered(s1.tx, b);
  }

  lemma StaysNumbered(tx: Sender, b: nat)
    requires tx.Valid() && tx.phase == Waiting && Numbered(tx.view, b)
    ensures Numbered(OnTimeOut(tx).0.view, b) && OnTimeOut(tx).0.seqNo == tx.seqNo
  {
  }

  // ----- the first message of a transfer, answered twice -----

  /** Packet 0 is accepted and its ACK lost; two copies of it, sent after a timeout, are both refused. */
  lemma HeaderTwice(memory: seq<Frame>, first: nat) returns (t: State)
    requires 2 <= |memory| <= SEQUENCE_NUM_MAX + 1 && first < 900
    ensures Reaches(Init(memory, first), t) && Settled(t, first) && t.tx.phase == Waiting && t.tx.view.count == 1
    ensures t.tx.view.Size() == |memory| - 1 && t.tx.view.slots[1..] == memory[1..]
    ensures |t.stamped| == |t.accepted| == 1 && t.lastSeq == Low5(first)
    ensures t.router == New() && t.toRouter == [] && t.toSender == [Reply(first + 1, Nack), Reply(first + 1, Nack)]
  {
    hide Reaches, Next, Numbered, Low5;
    var s0 := Init(memory, first);
    Fresh(memory, first);
    ReachesSelf(s0);
    var s := GiveOne(s0, s0, first, ZeroData());
    ReachesNext(s0, s, Transmit);
    var s1 := Next(s, Transmit);
    LiveBurst(s, first);
    HeaderAccepted(s1, first);
    var s2 := PassOne(s0, s1);
    assert s2.toRouter == [];
    ReachesNext(s0, s2, RouteReply(false, true));
    var s3 := Next(s2, RouteReply(false, true));
    ReplyDropped(s2);
    ReachesNext(s0, s3, TimeOut);
    var s4 := Next(s3, TimeOut);
    ResendStarts(s3, first);
    Low5Sum(first, 1);
    t := TwoBack(s0, s4);
    StaysNumbered(s1.tx, first);
    ReplyOfLow5(first);
  }

  lemma Fresh(memory: seq<Frame>, first: nat)
    requires 2 <= |memory| <= SEQUENCE_NUM_MAX + 1 && first < 900
    ensures Settled(Init(memory, first), first) && MayGive(Init(memory, first))
  {
  }

  lemma HeaderAccepted(s: State, first: nat)
    requires s.Valid() && s.lastSeq == -1 && |s.toRouter| == 1
    requires s.toRouter[0].ackType == Request && s.toRouter[0].seqNum == Low5(first)
    ensures var v := Check(s.lastSeq, s.toRouter[0]);
            v.accepted && v.lastSeq == Low5(first) && |v.reply| == 1
  {
    Low5Sum(Low5(first) - 1, 1);
    Low5Sum(first, 0);
  }

  lemma ReplyDropped(s: State)
    requires s.Valid() && |s.back| == 1 && s.router == New()
    ensures Next(s, RouteReply(false, true)) == s.(back := [])
  {
    assert s.back[1..] == [] && s.toSender + [] == s.toSender;
  }

  lemma ReplyOfLow5(n: int)
    ensures Reply(Low5(n) + 1, Nack) == Reply(n + 1, Nack)
  {
    Low5Sum(n, 1);
  }

  /** The first of the two NACKs takes packet 0 out of the window. Then `goal` packets follow, and their
      transmission finds the second NACK waiting: it is for no live packet. */
  lemma StaleNackPending(memory: seq<Frame>, first: nat, goal: nat) returns (t: State)
    requires 2 <= |memory| <= SEQUENCE_NUM_MAX + 1 && first < 800 && 1 <= goal < |memory| && goal <= 31
    ensures t.Valid() && Reaches(Init(memory, first), t) && t.tx.phase == Waiting && t.tx.view.count == goal
    ensures t.tx.view.Size() == |memory| - 1 && t.tx.view.slots[goal] == memory[goal]
    ensures |t.accepted| == 1 && |t.stamped| == 1 + goal && t.toSender == [Reply(first + 1, Nack)]
    ensures Find(t.tx.view.Live(), Low5(first)) == goal
  {
    hide Reaches, Numbered, Low5;
    var s0 := Init(memory, first);
    var s := HeaderTwice(memory, first);
    s := TakeNack(s0, s, first, 1);
    s := Fill(s0, s, first + 1, ZeroData(), goal);
    assert s.tx.view.slots[goal..] == memory[1..][goal - 1..];
    assert s.tx.view.slots[goal] == s.tx.view.slots[goal..][0] == memory[goal];
    t := Begun(s0, s);
    NotLive(t.tx.view, first, goal);
  }

  lemma NotLive(v: Window, first: nat, goal: nat)
    requires Numbered(v, first + 1) && v.count == goal <= 31
    ensures Find(v.Live(), Low5(first)) == goal
  {
    hide Low5;
    forall k: nat | k < v.count ensures v.Live()[k].seqNum != Low5(first) {
      Low5Injective(first + 1 + k, first);
    }
  }

  /** A WINDOW THAT STAYS FULL. With every window of 1 to 31 packets there is a clean run after which the
      caller has the window back as full as it gave it, although one packet only was accepted: the next
      payload will be passed over. Whether this run does it depends on the slot behind the buffer; when
      the first packet has the number 0, no content of that slot makes a difference. */
  lemma FullWindowStays(memory: seq<Frame>, first: nat) returns (t: State)
    requires 2 <= |memory| <= SEQUENCE_NUM_MAX && first < 800
    requires memory[|memory| - 1].seqNum != Low5(first) - 1
    ensures t.Valid() && Reaches(Init(memory, first), t) && t.tx.phase == Idle
    ensures t.tx.view.count == t.tx.view.Size() == |memory| - 1 && |t.accepted| == 1 && |t.stamped| == |memory|
    ensures forall data :: Next(t, Give(data)) == t
  {
    hide Reaches, Low5;
    var s0 := Init(memory, first);
    var s := StaleNackPending(memory, first, |memory| - 1);
    NackMisses(s, first);
    ReachesNext(s0, s, TakeReply);
    t := Next(s, TakeReply);
  }

  lemma NackMisses(s: State, first: nat)
    requires s.Valid() && s.tx.phase == Waiting && s.toSender == [Reply(first + 1, Nack)]
    requires Find(s.tx.view.Live(), Low5(first)) == s.tx.view.count > 0
    ensures Forgets(s, TakeReply) <==> s.tx.view.slots[s.tx.view.count].seqNum == Low5(first) - 1
    ensures !Forgets(s, TakeReply) ==> Next(s, TakeReply).tx.view == s.tx.view && Next(s, TakeReply).tx.phase == Idle
    ensures Next(s, TakeReply).stamped == s.stamped && Next(s, TakeReply).accepted == s.accepted
  {
    Low5Sum(first + 1, -1);
  }

  /** Unless slot k holds the number 31 at the start, there is a first number with which that slot makes
      line 506 drop k packets that were never received; slot k may be the one behind the buffer. */
  lemma StaleMemoryForgets(memory: seq<Frame>, k: nat) returns (t: State, first: nat)
    requires 2 <= |memory| <= SEQUENCE_NUM_MAX + 1 && 1 <= k < |memory| && k <= 31 && memory[k].seqNum != 31
    ensures first < 800 && t.Valid() && Reaches(Init(memory, first), t) && Forgets(t, TakeReply)
    ensures Departed(Next(t, TakeReply)) == |t.accepted| + k
  {
    hide Reaches, Next;
    first := memory[k].seqNum + 1;
    t := StaleNackPending(memory, first, k);
    assert Low5(first) == first;
    NackMisses(t, first);
    Safety.ForgetStep(t, TakeReply);
  }

  // ----- line 506 -----

  /** The branch at line 506 is reached with every window of 2 packets or more, whatever the memory holds
      at the start, and packets that were never received are dropped. */
  lemma StaleSlotForgets(memory: seq<Frame>) returns (t: State)
    requires 3 <= |memory| <= SEQUENCE_NUM_MAX + 1
    ensures t.Valid() && Reaches(Init(memory, 31), t) && Forgets(t, TakeReply)
    ensures Departed(Next(t, TakeReply)) > |t.accepted|
  {
    hide Reaches, Next, Forgets, Departed;
    if |memory| == 3 {
      t := TwoSlots(memory);
    } else {
      t := ManySlots(memory, if |memory| <= 32 then |memory| - 1 else 31);
    }
  }

  /** Once `w` packets have been acknowledged and all but two of their slots are in use again, a second NACK
      for the old window finds its number's predecessor in the slot behind the live ones. */
  lemma ManySlots(memory: seq<Frame>, w: nat) returns (t: State)
    requires 3 <= w < |memory| <= SEQUENCE_NUM_MAX + 1 && w <= 31
    ensures t.Valid() && Reaches(Init(memory, 31), t) && Forgets(t, TakeReply)
    ensures Departed(Next(t, TakeReply)) > |t.accepted|
  {
    hide Reaches, Next, Forgets, OnTimeOut, Begin;
    var s0 := Init(memory, 31);
    var s := Header(memory);
    s := Fill(s0, s, 32, ZeroData(), w);
    s := TwiceNacked(s0, s, 32);
    s := TakeNack(s0, s, 32, w);
    assert s.tx.view.slots[w - 2].seqNum == Low5(32 + w - 2);
    t := StaleNack(s0, s, 32 + w, w - 2);
  }

  /** `n` more packets are given and sent while a NACK for the packet before them is waiting; the slot
      behind them still holds the number before that. */
  lemma StaleNack(s0: State, s: State, b: nat, n: nat) returns (t: State)
    requires s0.Valid() && Settled(s, b) && Reaches(s0, s) && 2 <= b < 800 && s.tx.view.count == 0 && s.tx.phase == Idle
    requires 1 <= n <= s.tx.view.Size() && n <= 31 && |s.stamped| >= 2 && |s.stamped| == |s.accepted|
    requires s.toSender == [Reply(b, Nack)] && s.tx.view.slots[n].seqNum == Low5(b - 1) - 1
    ensures t.Valid() && Reaches(s0, t) && Forgets(t, TakeReply)
    ensures Departed(Next(t, TakeReply)) == |t.accepted| + n
  {
    hide Reaches, Next, Numbered, Low5;
    t := Fill(s0, s, b, ZeroData(), n);
    assert t.tx.view.slots[n] == t.tx.view.slots[n..][0] == s.tx.view.slots[n..][0];
    t := Begun(s0, t);
    NotLive(t.tx.view, b - 1, n);
    NackMisses(t, b - 1);
    Safety.ForgetStep(t, TakeReply);
  }

  /** With two slots the second one keeps an old packet while the first one is used for single messages. */
  lemma TwoSlots(memory: seq<Frame>) returns (t: State)
    requires |memory| == 3
    ensures t.Valid() && Reaches(Init(memory, 31), t) && Forgets(t, TakeReply)
    ensures Departed(Next(t, TakeReply)) > |t.accepted|
  {
    hide Reaches, Next, Forgets, OnTimeOut, Begin;
    var s0 := Init(memory, 31);
    var s := Header(memory);
    s := Fill(s0, s, 32, ZeroData(), 2);
    s := TwiceNacked(s0, s, 32);
    s := TakeNack(s0, s, 32, 2);
    assert s.tx.view.slots[1].seqNum == Low5(33);
    s := NackLost(s0, s);
    s := GiveOne(s0, s, 34, ZeroData());
    assert s.tx.view.slots[1] == s.tx.view.slots[1..][0];
    s := TwiceNacked(s0, s, 34);
    s := TakeNack(s0, s, 34, 1);
    t := StaleNack(s0, s, 35, 1);
  }

  lemma NackLost(s0: State, s: State) returns (t: State)
    requires s0.Valid() && s.Valid() && Reaches(s0, s) && |s.toSender| == 1
    ensures t.Valid() && Reaches(s0, t) && t == s.(toSender := [])
  {
    ReachesNext(s0, s, LoseReply);
    t := Next(s, LoseReply);
  }

  /** ONE SLOT. With a window of one packet, line 506 can be reached, with some number of the first packet,
      exactly when the memory behind the buffer does not hold the number 31. */
  lemma OneSlotForgets(memory: seq<Frame>)
    requires |memory| == 2
    ensures memory[1].seqNum != 31 <==>
            exists first: nat, t: State ::
              first < UINT_RANGE && t.Valid() && Reaches(Init(memory, first), t) && Forgets(t, TakeReply)
  {
    hide Reaches, Forgets;
    if memory[1].seqNum != 31 {
      var t, first := StaleMemoryForgets(memory, 1);
    } else {
      forall first: nat, t: State | first < UINT_RANGE && t.Valid() && Reaches(Init(memory, first), t)
        ensures !Forgets(t, TakeReply)
      {
        NeverReached(memory, first, t);
      }
    }
  }

  lemma NeverReached(memory: seq<Frame>, first: nat, t: State)
    requires |memory| == 2 && memory[1].seqNum == 31 && first < UINT_RANGE
    requires t.Valid() && Reaches(Init(memory, first), t)
    ensures !Forgets(t, TakeReply)
  {
    hide Link.Run, Clean;
    var events :| Clean(Init(memory, first), events) && Link.Run(Init(memory, first), events) == t;
    WindowBuffer.BehindIsUntouched(memory, first, events);
  }
}
