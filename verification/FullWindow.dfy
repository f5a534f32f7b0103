/** Exactly when a transmission gives the caller its window back as it was, so that a full window stays
    full and copy_2_winbuf passes over the next payload. */
module FullWindow {
  import opened Protocol
  import opened SenderSpec
  import opened Termination

  /** A reply that ends the call and finds nothing to remove. */
  predicate Misses(v: Window, f: Frame)
    requires v.Valid()
  {
    && f.ackType in {Nack, Sack}
    && Find(v.Live(), Low5(f.seqNum - 1)) == v.count && !StaleHit(v, Low5(f.seqNum - 1))
  }

  /** What neither ends the call nor takes the base packet out of the window. */
  predicate Harmless(v: Window, a: Arrival)
    requires v.Valid()
  {
    || a.TimedOut?
    || (a.frame.ackType !in {Nack, Sack} && !(a.frame.ackType == Ack && a.frame.seqNum == v.slots[0].seqNum))
  }

  function Missing(v: Window): Arrival -> bool
    requires v.Valid()
  {
    (a: Arrival) => a.Datagram? && v.Valid() && Misses(v, a.frame)
  }

  function Passing(v: Window): Arrival -> bool
    requires v.Valid()
  {
    (a: Arrival) => v.Valid() && Harmless(v, a)
  }

  /** The first NACK or SACK is arrival `k` and misses; before it there are fewer timeouts than retries and
      no ACK for the base packet. */
  ghost predicate Fruitless(v: Window, retries: nat, inbox: seq<Arrival>, k: nat)
    requires v.Valid()
  {
    && k < |inbox| && inbox[k].Datagram? && Misses(v, inbox[k].frame)
    && Timeouts(inbox[..k]) < retries && forall j | 0 <= j < k :: Harmless(v, inbox[j])
  }

  ghost predicate SomeFruitless(v: Window, retries: nat, inbox: seq<Arrival>)
    requires v.Valid()
  {
    Meets(Missing(v), Passing(v), retries, inbox)
  }

  lemma FruitlessMeets(v: Window, retries: nat, inbox: seq<Arrival>)
    requires v.Valid()
    ensures SomeFruitless(v, retries, inbox) <==> exists k :: Fruitless(v, retries, inbox, k)
  {
    hide Misses, Harmless, Timeouts;
    forall k: nat ensures MeetsAt(Missing(v), Passing(v), retries, inbox, k) <==> Fruitless(v, retries, inbox, k) {
    }
    if SomeFruitless(v, retries, inbox) {
      var k: nat :| MeetsAt(Missing(v), Passing(v), retries, inbox, k);
      assert Fruitless(v, retries, inbox, k);
    }
    if k: nat :| Fruitless(v, retries, inbox, k) {
      assert MeetsAt(Missing(v), Passing(v), retries, inbox, k);
    }
  }

  /** The condition read from the front of the inbox. */
  lemma FruitlessFirst(v: Window, retries: nat, inbox: seq<Arrival>)
    requires v.Valid() && inbox != []
    ensures SomeFruitless(v, retries, inbox) <==>
            || (retries > 0 && inbox[0].Datagram? && Misses(v, inbox[0].frame))
            || (Harmless(v, inbox[0]) &&
                if inbox[0].TimedOut? then retries > 0 && SomeFruitless(v, retries - 1, inbox[1..])
                else SomeFruitless(v, retries, inbox[1..]))
  {
    hide Misses, Harmless, Meets;
    MeetsFirst(Missing(v), Passing(v), retries, inbox);
  }

  lemma SameLive(v: Window, v': Window, retries: nat, inbox: seq<Arrival>)
    requires v.Valid() && v'.Valid() && v'.slots == v.slots && v'.count == v.count
    ensures SomeFruitless(v', retries, inbox) == SomeFruitless(v, retries, inbox)
  {
    hide Misses, Harmless, Meets;
    MissesSame(v, v');
    MeetsSame(Missing(v), Passing(v), Missing(v'), Passing(v'), retries, inbox);
  }

  lemma MissesSame(v: Window, v': Window)
    requires v.Valid() && v'.Valid() && v'.slots == v.slots && v'.count == v.count
    ensures forall f :: Misses(v', f) == Misses(v, f)
    ensures forall a :: Harmless(v', a) == Harmless(v, a)
  {
  }

  // ----- single arrivals -----

  lemma RemoveSmaller(v: Window, num: SeqNum)
    requires v.Valid() && v.count > 0
    ensures Remove(v, num).count == v.count <==> Find(v.Live(), num) == v.count && !StaleHit(v, num)
  {
  }

  /** An ACK for another packet than the base changes tags only; one for the base takes it out. */
  lemma AckEffect(s: Sender, num: SeqNum)
    requires s.Valid() && s.phase == Waiting && s.view.count > 0 && !s.view.acked[0]
    ensures var s' := OnAck(s, num);
            if num == s.view.slots[0].seqNum then s'.view.count < s.view.count
            else s'.phase == Waiting && s'.retry == s.retry && !s'.view.acked[0]
                 && s'.view.slots == s.view.slots && s'.view.count == s.view.count
  {
    hide Remove, Shift;
    var v := Mark(s.view, num);
    assert s.view.Live()[0] == s.view.slots[0];
    FrontTag(v);
    if AckRun(v) > 0 {
      var run := AckRun(v);
      assert v.Live()[run - 1] == v.slots[run - 1];
      FoundSmaller(v, run - 1);
    }
  }

  lemma FoundSmaller(v: Window, k: nat)
    requires v.Valid() && k < v.count
    ensures Remove(v, v.slots[k].seqNum).count < v.count
  {
    assert v.Live()[k] == v.slots[k];
  }

  // ----- whole calls -----

  ghost predicate Unmoved(s: Sender, r: Sender) {
    r.phase == Idle && r.view.count == s.view.count
  }

  lemma {:induction false} ExchangeUnmoved(s: Sender, inbox: seq<Arrival>, sent: seq<Frame>)
    requires s.Valid() && s.phase == Waiting && s.view.count > 0 && !s.view.acked[0]
    ensures Unmoved(s, Exchange(s, inbox, sent).0) <==> SomeFruitless(s.view, s.retry, inbox)
    decreases s.retry, |inbox|
  {
    hide Exchange, OnArrival, Meets, Misses, Harmless;
    if inbox == [] {
      NothingMet(Missing(s.view), Passing(s.view), s.retry);
    } else {
      var (s', rest, sent') := OneTurn(s, inbox, sent);
      ExchangeTurn(s, inbox, sent);
      FruitlessFirst(s.view, s.retry, inbox);
      ExchangeFewer(s', rest, sent');
      OneArrival(s, inbox[0]);
      if s'.phase == Waiting && s'.view.count == s.view.count {
        ExchangeUnmoved(s', rest, sent');
        SameLive(s.view, s'.view, s'.retry, rest);
      } else if s'.phase != Waiting {
        ExchangeOver(s', rest, sent');
        NeverMet(Missing(s.view), Passing(s.view), rest);
      }
    }
  }

  /** One arrival: it leaves the packets alone and the call goes on, or removes something, or ends the
      call. */
  lemma OneArrival(s: Sender, a: Arrival)
    requires s.Valid() && s.phase == Waiting && s.view.count > 0 && !s.view.acked[0]
    ensures var s' := OnArrival(s, a).0;
            && (Harmless(s.view, a) && (a.TimedOut? ==> s.retry > 1) ==>
                  && s'.phase == Waiting && s'.retry == (if a.TimedOut? then s.retry - 1 else s.retry)
                  && !s'.view.acked[0] && s'.view.slots == s.view.slots && s'.view.count == s.view.count)
            && (a.TimedOut? && s.retry == 1 ==> s'.phase == Failed)
            && (a.Datagram? && a.frame.ackType in {Nack, Sack} ==>
                  s'.phase == Idle && (s'.view.count == s.view.count <==> Misses(s.view, a.frame)))
            && (!Harmless(s.view, a) && a.frame.ackType == Ack ==> s'.view.count < s.view.count)
            && (a.Datagram? ==> (Misses(s.view, a.frame) ==> a.frame.ackType in {Nack, Sack}))
            && (!Harmless(s.view, a) ==> a.Datagram? && a.frame.ackType in {Ack, Nack, Sack})
            && (Harmless(s.view, a) ==> a.TimedOut? || a.frame.ackType !in {Nack, Sack})
  {
    hide OnAck, Remove;
    if a.Datagram? {
      if a.frame.ackType == Ack {
        AckEffect(s, a.frame.seqNum);
      } else if a.frame.ackType in {Nack, Sack} {
        RemoveSmaller(s.view, Low5(a.frame.seqNum - 1));
      }
    }
  }

  /** FRUITLESS TRANSMISSION. A transmission of a window that is not empty comes back, without failing, with
      as many packets as before if and only if the first NACK or SACK that comes in is for no live packet
      and not the case of line 506, comes before the retries are used up, and is not preceded by an ACK
      for the base packet. For a full window this is when the next payload is passed over. */
  lemma ReturnsUnmoved(s: Sender, inbox: seq<Arrival>, sent: seq<Frame>)
    requires s.Valid() && s.view.count > 0
    ensures var r := Transmission(s, inbox, sent).0;
            r.phase == Idle && r.view.count == s.view.count <==> exists k :: Fruitless(s.view, 1000, inbox, k)
  {
    hide Exchange, Fruitless, Meets;
    ExchangeUnmoved(Begin(s), inbox, sent + Burst(s.view));
    SameLive(s.view, Begin(s).view, 1000, inbox);
    FruitlessMeets(s.view, 1000, inbox);
  }
}
