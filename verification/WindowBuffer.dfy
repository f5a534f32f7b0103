/** The window buffer in every run whatever, with up to 32 slots: also where packets are forgotten or
    numbers are mistaken, the buffer itself stays sound. */
module WindowBuffer {
  import opened Protocol
  import opened SenderSpec
  import opened Link

  /** Slot k holds the packet that was stamped as the k-th of the last `count`, numbered by the counter
      `n` alone. */
  ghost predicate Numbered(v: Window, n: int, stamped: seq<Payload>) {
    && v.Valid() && v.count <= |stamped|
    && forall k: nat | k < v.count ::
         v.slots[k] == Frame(Low5(n - v.count + k), Request, stamped[|stamped| - v.count + k])
  }

  ghost predicate TagsClear(v: Window) {
    v.Valid() && (v.count > 0 ==> forall k | v.count <= k < SEQUENCE_NUM_MAX :: !v.acked[k])
  }

  ghost predicate Sound(tx: Sender, stamped: seq<Payload>) {
    tx.Valid() && Numbered(tx.view, tx.seqNo, stamped) && (tx.phase == Waiting ==> TagsClear(tx.view))
  }

  /** The in-place shift to the left keeps packets and tags aligned, and clears the tags that it frees. */
  lemma ShiftKeeps(v: Window, i: nat, n: int, stamped: seq<Payload>)
    requires Numbered(v, n, stamped) && 0 < i <= v.count
    ensures Numbered(Shift(v, i), n, stamped) && TagsClear(Shift(v, i))
    ensures forall k: nat | k < Shift(v, i).count :: Shift(v, i).acked[k] == v.acked[i + k]
  {
    hide Low5;
    var v' := Shift(v, i);
    forall k: nat | k < v'.count
      ensures v'.slots[k] == Frame(Low5(n - v'.count + k), Request, stamped[|stamped| - v'.count + k])
    {
      assert v'.slots[k] == v.slots[i + k];
    }
  }

  lemma RemoveKeeps(v: Window, num: SeqNum, n: int, stamped: seq<Payload>)
    requires Numbered(v, n, stamped)
    ensures Numbered(Remove(v, num), n, stamped) && (TagsClear(v) ==> TagsClear(Remove(v, num)))
  {
    hide Shift, Find, Numbered;
    assert v.Valid() by { ValidOf(v, n, stamped); }
    var k := Find(v.Live(), num);
    if k < v.count {
      ShiftKeeps(v, k + 1, n, stamped);
    } else {
      Emptied(v, n, stamped);
    }
  }

  lemma ValidOf(v: Window, n: int, stamped: seq<Payload>)
    requires Numbered(v, n, stamped)
    ensures v.Valid()
  {
  }

  lemma Emptied(v: Window, n: int, stamped: seq<Payload>)
    requires Numbered(v, n, stamped)
    ensures Numbered(v.(count := 0), n, stamped)
  {
  }

  lemma MarkKeeps(v: Window, num: SeqNum, n: int, stamped: seq<Payload>)
    requires Numbered(v, n, stamped) && TagsClear(v)
    ensures Numbered(Mark(v, num), n, stamped) && TagsClear(Mark(v, num))
  {
  }

  lemma StampKeeps(tx: Sender, stamped: seq<Payload>, data: Payload)
    requires Sound(tx, stamped) && tx.phase == Idle && tx.view.count < tx.view.Size()
    ensures Sound(Stamp(tx, data), stamped + [data])
  {
    hide Low5;
    var t, all := Stamp(tx, data), stamped + [data];
    var v := t.view;
    forall k: nat | k < v.count
      ensures v.slots[k] == Frame(Low5(t.seqNo - v.count + k), Request, all[|all| - v.count + k])
    {
      CounterUp(tx.seqNo + 1, k - v.count);
    }
  }

  /** The wrap-around of the 32-bit counter cannot be seen in the numbers. */
  lemma CounterUp(n: int, d: int)
    ensures Low5(n % UINT_RANGE + d) == Low5(n + d)
  {
    Low5OfUint(n);
    Low5Sum(n, d);
    Low5Sum(n % UINT_RANGE, d);
  }

  lemma AckKeeps(tx: Sender, stamped: seq<Payload>, num: SeqNum)
    requires Sound(tx, stamped) && tx.phase == Waiting
    ensures Sound(OnAck(tx, num), stamped)
  {
    hide Mark, Remove, AckRun, Numbered, TagsClear;
    if tx.view.count > 0 {
      var v := Mark(tx.view, num);
      MarkKeeps(tx.view, num, tx.seqNo, stamped);
      if AckRun(v) > 0 {
        RemoveKeeps(v, v.slots[AckRun(v) - 1].seqNum, tx.seqNo, stamped);
      }
    }
  }

  lemma ArrivalKeeps(tx: Sender, stamped: seq<Payload>, a: Arrival)
    requires Sound(tx, stamped) && tx.phase == Waiting
    ensures Sound(OnArrival(tx, a).0, stamped)
  {
    hide OnAck, Remove, Low5;
    match a
    case TimedOut =>
    case Datagram(f) =>
      if f.ackType == Ack {
        AckKeeps(tx, stamped, f.seqNum);
      } else if f.ackType == Nack || f.ackType == Sack {
        RemoveKeeps(tx.view, Low5(f.seqNum - 1), tx.seqNo, stamped);
      }
  }

  lemma NextKeeps(s: State, e: Event)
    requires s.Valid() && Sound(s.tx, s.stamped)
    ensures Sound(Next(s, e).tx, Next(s, e).stamped)
  {
    hide OnArrival, Stamp, Numbered, Check;
    match e
    case Give(data) =>
      if MayGive(s) {
        StampKeeps(s.tx, s.stamped, data);
      }
    case Transmit => BeginKeeps(s.tx, s.stamped);
    case TimeOut =>
      if s.tx.phase == Waiting {
        ArrivalKeeps(s.tx, s.stamped, TimedOut);
      }
    case TakeReply =>
      if s.tx.phase == Waiting && s.toSender != [] {
        ArrivalKeeps(s.tx, s.stamped, Datagram(s.toSender[0]));
      }
    case _ =>
  }

  lemma BeginKeeps(tx: Sender, stamped: seq<Payload>)
    requires Sound(tx, stamped)
    ensures Sound(Begin(tx), stamped)
  {
  }

  lemma {:induction false} RunKeeps(memory: seq<Frame>, first: nat, events: seq<Event>)
    requires 2 <= |memory| <= SEQUENCE_NUM_MAX + 1 && first < UINT_RANGE
    ensures var s := Run(Init(memory, first), events);
            Sound(s.tx, s.stamped)
  {
    hide Next;
    if events != [] {
      RunKeeps(memory, first, events[..|events| - 1]);
      hide Sound;
      NextKeeps(Run(Init(memory, first), events[..|events| - 1]), events[|events| - 1]);
    }
  }

  /** WINDOW. In every run the live slots hold the last packets stamped, in order, with the numbers that
      follow from the counter; the numbers are all different; no tag is set behind the live packets. */
  lemma WindowIsSound(memory: seq<Frame>, first: nat, events: seq<Event>)
    requires 2 <= |memory| <= SEQUENCE_NUM_MAX + 1 && first < UINT_RANGE
    ensures var s := Run(Init(memory, first), events);
            var v := s.tx.view;
            && v.count <= |s.stamped|
            && (forall k: nat | k < v.count ::
                  v.slots[k] == Frame(Low5(s.tx.seqNo - v.count + k), Request, s.stamped[Departed(s) + k]))
            && (forall j: nat, k: nat | j < k < v.count :: v.slots[j].seqNum != v.slots[k].seqNum)
            && (s.tx.phase == Waiting && v.count > 0 ==> forall k | v.count <= k < SEQUENCE_NUM_MAX :: !v.acked[k])
  {
    hide Run;
    RunKeeps(memory, first, events);
    var s := Run(Init(memory, first), events);
    NumbersDiffer(s.tx.view, s.tx.seqNo, s.stamped);
  }

  lemma NumbersDiffer(v: Window, n: int, stamped: seq<Payload>)
    requires Numbered(v, n, stamped)
    ensures forall j: nat, k: nat | j < k < v.count :: v.slots[j].seqNum != v.slots[k].seqNum
  {
    hide Low5;
    forall j: nat, k: nat | j < k < v.count ensures v.slots[j].seqNum != v.slots[k].seqNum {
      Low5Injective(n - v.count + j, n - v.count + k);
    }
  }

  /** The slot behind the buffer is never written, in any run. */
  lemma {:induction false} BehindIsUntouched(memory: seq<Frame>, first: nat, events: seq<Event>)
    requires 2 <= |memory| <= SEQUENCE_NUM_MAX + 1 && first < UINT_RANGE
    ensures var v := Run(Init(memory, first), events).tx.view;
            |v.slots| == |memory| && v.slots[|memory| - 1] == memory[|memory| - 1]
  {
    hide Next;
    if events != [] {
      BehindIsUntouched(memory, first, events[..|events| - 1]);
      LastSlotKept(Run(Init(memory, first), events[..|events| - 1]), events[|events| - 1]);
    }
  }

  lemma LastSlotKept(s: State, e: Event)
    requires s.Valid()
    ensures Next(s, e).tx.view.slots[s.tx.view.Size()] == s.tx.view.slots[s.tx.view.Size()]
  {
    hide OnArrival, Check;
    if s.tx.phase == Waiting {
      ArrivalKeepsLast(s.tx, if e == TakeReply && s.toSender != [] then Datagram(s.toSender[0]) else TimedOut);
    }
  }

  lemma ArrivalKeepsLast(tx: Sender, a: Arrival)
    requires tx.Valid() && tx.phase == Waiting
    ensures OnArrival(tx, a).0.view.slots[tx.view.Size()] == tx.view.slots[tx.view.Size()]
  {
    hide Mark, Remove, AckRun;
    match a
    case TimedOut =>
    case Datagram(f) =>
      RemoveKeepsLast(tx.view, Low5(f.seqNum - 1));
      var v := Mark(tx.view, f.seqNum);
      if AckRun(v) > 0 {
        RemoveKeepsLast(v, v.slots[AckRun(v) - 1].seqNum);
      }
  }

  lemma RemoveKeepsLast(v: Window, num: SeqNum)
    requires v.Valid()
    ensures Remove(v, num).slots[v.Size()] == v.slots[v.Size()]
  {
    hide Find;
  }
}
