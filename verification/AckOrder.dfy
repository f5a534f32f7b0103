/** Between two timeouts the order in which ACKs come in, and how often, makes no difference. */
module AckOrder {
  import opened Protocol
  import opened SenderSpec

  /** The loop of udp_sendtoEx on a series of ACKs; it ends when the window is empty. */
  function TakeAcks(s: Sender, acks: seq<SeqNum>): (s': Sender)
    requires s.Valid()
    ensures s'.Valid()
  {
    if acks == [] then s
    else
      var s1 := TakeAcks(s, acks[..|acks| - 1]);
      if s1.phase == Waiting then OnAck(s1, acks[|acks| - 1]) else s1
  }

  /** The length of the longest prefix of the window whose numbers are all in `seen`. */
  function Covered(frames: seq<Frame>, seen: set<SeqNum>): (k: nat)
    ensures k <= |frames|
    ensures forall j | 0 <= j < k :: frames[j].seqNum in seen
    ensures k < |frames| ==> frames[k].seqNum !in seen
  {
    if frames == [] || frames[0].seqNum !in seen then 0 else 1 + Covered(frames[1..], seen)
  }

  ghost predicate Distinct(frames: seq<Frame>) {
    forall i, j | 0 <= i < j < |frames| :: frames[i].seqNum != frames[j].seqNum
  }

  /** What a set of ACKs leaves of a window: without the covered prefix, the others tagged when seen. */
  ghost predicate Left(frames: seq<Frame>, seen: set<SeqNum>, s: Sender)
    requires s.Valid()
  {
    var k := Covered(frames, seen);
    if k == |frames| then s.phase == Idle && s.view.count == 0
    else
      && s.phase == Waiting && s.view.Live() == frames[k..]
      && forall j: nat | j < s.view.count :: s.view.acked[j] <==> s.view.Live()[j].seqNum in seen
  }

  lemma FindAt(frames: seq<Frame>, num: SeqNum, k: nat)
    requires Distinct(frames) && k < |frames| && frames[k].seqNum == num
    ensures Find(frames, num) == k
  {
  }

  /** Covering more never uncovers, and what is newly covered is the next run of seen numbers. */
  lemma CoveredGrows(frames: seq<Frame>, seen: set<SeqNum>, num: SeqNum, run: nat)
    requires var k := Covered(frames, seen);
             && k + run <= |frames|
             && (forall j | k <= j < k + run :: frames[j].seqNum in seen + {num})
             && (k + run < |frames| ==> frames[k + run].seqNum !in seen + {num})
    ensures Covered(frames, seen + {num}) == Covered(frames, seen) + run
  {
    var k, k' := Covered(frames, seen), Covered(frames, seen + {num});
    assert forall j | 0 <= j < k + run :: frames[j].seqNum in seen + {num};
  }

  /** The window after tagging, with respect to the larger set. */
  lemma MarkTags(v: Window, seen: set<SeqNum>, num: SeqNum)
    requires v.Valid() && Distinct(v.Live())
    requires forall j: nat | j < v.count :: v.acked[j] <==> v.Live()[j].seqNum in seen
    ensures var v' := Mark(v, num);
            v'.Live() == v.Live() && forall j: nat | j < v.count :: v'.acked[j] <==> v.Live()[j].seqNum in seen + {num}
  {
    var k := Find(v.Live(), num);
    if k < v.count {
      forall j: nat | j < v.count && j != k ensures v.Live()[j].seqNum != num {
      }
    }
  }

  lemma ShiftLive(v: Window, i: nat)
    requires v.Valid() && 0 < i <= v.count
    ensures Shift(v, i).Live() == v.Live()[i..]
    ensures forall j: nat | j < v.count - i :: i < v.count ==> Shift(v, i).acked[j] == v.acked[i + j]
  {
  }

  ghost predicate TagsSeen(v: Window, seen: set<SeqNum>)
    requires v.Valid()
  {
    forall j: nat | j < v.count :: v.acked[j] <==> v.Live()[j].seqNum in seen
  }

  lemma RunGrows(frames: seq<Frame>, seen: set<SeqNum>, v: Window, num: SeqNum)
    requires v.Valid() && v.Live() == frames[Covered(frames, seen)..] && TagsSeen(v, seen + {num})
    ensures Covered(frames, seen + {num}) == Covered(frames, seen) + AckRun(v)
  {
    hide Covered;
    var k, run := Covered(frames, seen), AckRun(v);
    forall j | k <= j < k + run ensures frames[j].seqNum in seen + {num} {
      assert v.Live()[j - k] == frames[j] && v.acked[..v.count][j - k];
    }
    if run < v.count {
      assert v.Live()[run] == frames[k + run] && !v.acked[..v.count][run];
    }
    CoveredGrows(frames, seen, num, run);
  }

  lemma RunRemoved(v: Window)
    requires v.Valid() && Distinct(v.Live()) && AckRun(v) > 0
    ensures Remove(v, v.slots[AckRun(v) - 1].seqNum) == Shift(v, AckRun(v))
  {
    hide AckRun, Shift;
    assert v.Live()[AckRun(v) - 1] == v.slots[AckRun(v) - 1];
    FindAt(v.Live(), v.Live()[AckRun(v) - 1].seqNum, AckRun(v) - 1);
  }

  lemma AckKeepsLeft(frames: seq<Frame>, seen: set<SeqNum>, s: Sender, num: SeqNum)
    requires s.Valid() && Distinct(frames) && Left(frames, seen, s) && s.phase == Waiting
    ensures Left(frames, seen + {num}, OnAck(s, num))
  {
    hide Covered, Mark, AckRun, Remove, Shift;
    var k, v := Covered(frames, seen), Mark(s.view, num);
    MarkTags(s.view, seen, num);
    RunGrows(frames, seen, v, num);
    var run := AckRun(v);
    if run > 0 {
      RunRemoved(v);
      assert frames[k..][run..] == frames[k + run..];
      LeftAfterShift(frames, seen + {num}, s, v, k, run);
    }
  }

  lemma LeftAfterShift(frames: seq<Frame>, seen: set<SeqNum>, s: Sender, v: Window, k: nat, run: nat)
    requires v.Valid() && 0 < run <= v.count && k + v.count == |frames| && v.Live() == frames[k..]
    requires forall j: nat | j < v.count :: v.acked[j] <==> v.Live()[j].seqNum in seen
    ensures run < v.count ==> Shift(v, run).Live() == frames[k + run..]
    ensures run < v.count ==>
      forall j: nat | j < v.count - run :: Shift(v, run).acked[j] <==> Shift(v, run).Live()[j].seqNum in seen
  {
    ShiftLive(v, run);
  }

  function Seen(acks: seq<SeqNum>): set<SeqNum> {
    set a | a in acks
  }

  /** ORDER INDEPENDENCE. Whatever series of ACKs comes in - in any order, repeated, or for packets
      outside the window - what is left depends only on the set of numbers seen: the window without
      its longest prefix in that set, the other acknowledged packets being tagged and no more. */
  lemma {:induction false} AcksLeave(s: Sender, acks: seq<SeqNum>)
    requires s.Valid() && s.phase == Waiting && s.view.count > 0 && s.view.acked == NoAcks() && Distinct(s.view.Live())
    ensures Left(s.view.Live(), Seen(acks), TakeAcks(s, acks))
  {
    if acks == [] {
      assert s.view.Live()[0].seqNum !in Seen([]);
      assert s.view.Live()[0..] == s.view.Live();
    } else {
      var before, last := acks[..|acks| - 1], acks[|acks| - 1];
      AcksLeave(s, before);
      assert Seen(acks) == Seen(before) + {last};
      var s1 := TakeAcks(s, before);
      if s1.phase == Waiting {
        AckKeepsLeft(s.view.Live(), Seen(before), s1, last);
      } else {
        CoveredGrows(s.view.Live(), Seen(before), last, 0);
      }
    }
  }

  /** Two series with the same numbers leave the same window, the same tags and the same phase. */
  lemma AckOrderIrrelevant(s: Sender, xs: seq<SeqNum>, ys: seq<SeqNum>)
    requires s.Valid() && s.phase == Waiting && s.view.count > 0 && s.view.acked == NoAcks() && Distinct(s.view.Live())
    requires Seen(xs) == Seen(ys)
    ensures var (x, y) := (TakeAcks(s, xs), TakeAcks(s, ys));
            && x.phase == y.phase && x.view.Live() == y.view.Live()
            && (x.phase == Waiting ==> x.view.acked[..x.view.count] == y.view.acked[..y.view.count])
  {
    hide TakeAcks, Covered;
    AcksLeave(s, xs);
    AcksLeave(s, ys);
    var x, y := TakeAcks(s, xs), TakeAcks(s, ys);
    if x.phase == Waiting {
      assert forall j: nat | j < x.view.count :: x.view.acked[j] <==> x.view.Live()[j].seqNum in Seen(xs);
      assert forall j: nat | j < y.view.count :: y.view.acked[j] <==> y.view.Live()[j].seqNum in Seen(ys);
    }
  }
}
