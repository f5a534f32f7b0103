/** Why a call of udp_sendtoEx ends, as far as that depends on what comes in. */
module Termination {
  import opened Protocol
  import opened SenderSpec
  import opened AckOrder

  function Untagged(tags: seq<bool>): nat {
    if tags == [] then 0 else Untagged(tags[1..]) + if tags[0] then 0 else 1
  }

  /** How many packets of the window are not acknowledged. */
  function Open(v: Window): nat
    requires v.Valid()
  {
    Untagged(v.acked[..v.count])
  }

  lemma {:induction false} UntaggedUpdate(tags: seq<bool>, k: nat)
    requires k < |tags|
    ensures Untagged(tags[k := true]) == Untagged(tags) - if tags[k] then 0 else 1
  {
    if k > 0 {
      UntaggedUpdate(tags[1..], k - 1);
      assert tags[k := true][1..] == tags[1..][k - 1 := true];
    }
  }

  lemma {:induction false} UntaggedDrop(tags: seq<bool>, n: nat)
    requires n <= |tags| && forall j | 0 <= j < n :: tags[j]
    ensures Untagged(tags[n..]) == Untagged(tags)
  {
    if n > 0 {
      UntaggedDrop(tags[1..], n - 1);
      assert tags[1..][n - 1..] == tags[n..];
    }
  }

  /** The state between two turns: no packet at the front of the window is tagged. */
  ghost predicate Trimmed(s: Sender) {
    s.Valid() && s.phase == Waiting && Distinct(s.view.Live()) && (s.view.count > 0 ==> !s.view.acked[0])
  }

  /** Tagging closes one packet, or none when the packet is tagged already or not in the window. */
  lemma MarkCloses(v: Window, num: SeqNum)
    requires v.Valid()
    ensures var k := Find(v.Live(), num);
            Open(Mark(v, num)) == Open(v) - if k < v.count && !v.acked[k] then 1 else 0
  {
    hide Untagged;
    var k := Find(v.Live(), num);
    if k < v.count {
      UntaggedUpdate(v.acked[..v.count], k);
      assert Mark(v, num).acked[..v.count] == v.acked[..v.count][k := true];
    }
  }

  lemma RunCloses(v: Window)
    requires v.Valid() && 0 < AckRun(v) < v.count
    ensures Open(Shift(v, AckRun(v))) == Open(v) && !Shift(v, AckRun(v)).acked[0]
  {
    hide Untagged;
    var run := AckRun(v);
    var tags := v.acked[..v.count];
    UntaggedDrop(tags, run);
    var v' := Shift(v, run);
    assert v'.acked[..v'.count] == tags[run..];
    assert v'.acked[0] == v'.acked[..v'.count][0] == tags[run];
  }

  /** The number is that of a packet in the window which is not tagged yet. */
  predicate IsNews(v: Window, num: SeqNum)
    requires v.Valid()
  {
    var k := Find(v.Live(), num);
    k < v.count && !v.acked[k]
  }

  /** An ACK leaves the window as it was exactly when it is repeated or for no packet in the window; any
      other closes one packet, and takes effect even when it ends the call. */
  lemma AckCloses(s: Sender, num: SeqNum)
    requires Trimmed(s)
    ensures var s' := OnAck(s, num);
            && (s'.view == s.view <==> !IsNews(s.view, num))
            && (s'.phase == Waiting ==>
                  && Trimmed(s') && s'.retry == s.retry && s'.view.count <= s.view.count
                  && Open(s'.view) == Open(s.view) - if IsNews(s.view, num) then 1 else 0)
  {
    hide Open, Remove, Shift, Find, AckRun;
    if s.view.count == 0 {
      return;
    }
    var v := Mark(s.view, num);
    MarkCloses(s.view, num);
    var run := AckRun(v);
    var k := Find(s.view.Live(), num);
    assert v.Live() == s.view.Live();
    if k < s.view.count && s.view.acked[k] {
      assert v == s.view;
    }
    if run > 0 {
      RunRemoved(v);
      if run < v.count {
        RunCloses(v);
      }
      ShiftLive(v, run);
      FrontTag(v);
    } else {
      FrontTag(v);
    }
  }

  lemma FrontTag(v: Window)
    requires v.Valid() && v.count > 0
    ensures AckRun(v) > 0 <==> v.acked[0]
  {
    assert v.acked[..v.count][0] == v.acked[0];
  }

  /** A datagram that makes progress: an ACK for a packet of the window that is not tagged yet. */
  predicate NewAck(v: Window, a: Arrival)
    requires v.Valid()
  {
    a.Datagram? && a.frame.ackType == Ack && IsNews(v, a.frame.seqNum)
  }

  /** MEASURE. Each turn that does not end the call lowers the retries by one if it was a timeout. A datagram
      keeps them and lowers the number of open packets, by one, exactly when it is an ACK for a packet that
      is in the window and not tagged; every other one leaves the window as it was. */
  lemma TurnLowersMeasure(s: Sender, a: Arrival)
    requires Trimmed(s) && OnArrival(s, a).0.phase == Waiting
    ensures var s' := OnArrival(s, a).0;
            && Trimmed(s') && s'.view.count <= s.view.count
            && (a.TimedOut? ==> s'.retry == s.retry - 1 && Open(s'.view) == s'.view.count == s.view.count)
            && (a.Datagram? ==>
                  && s'.retry == s.retry && Open(s'.view) == Open(s.view) - (if NewAck(s.view, a) then 1 else 0)
                  && (s'.view == s.view <==> !NewAck(s.view, a)))
  {
    hide OnAck, Open, IsNews;
    match a
    case TimedOut =>
      AllOpen(s.view);
    case Datagram(f) =>
      if f.ackType == Ack {
        AckCloses(s, f.seqNum);
      }
  }

  lemma AllOpen(v: Window)
    requires v.Valid()
    ensures Open(v.(acked := NoAcks())) == v.count
  {
    NoneSet(NoAcks()[..v.count]);
  }

  lemma {:induction false} NoneSet(tags: seq<bool>)
    requires forall j | 0 <= j < |tags| :: !tags[j]
    ensures Untagged(tags) == |tags|
  {
    if tags != [] {
      NoneSet(tags[1..]);
    }
  }

  /** The states of the call while it goes on waiting. */
  function After(s: Sender, arrivals: seq<Arrival>): (s': Sender)
    requires s.Valid()
    ensures s'.Valid()
  {
    if arrivals == [] then s
    else
      var s1 := After(s, arrivals[..|arrivals| - 1]);
      if s1.phase == Waiting then OnArrival(s1, arrivals[|arrivals| - 1]).0 else s1
  }

  function Timeouts(arrivals: seq<Arrival>): nat {
    if arrivals == [] then 0
    else Timeouts(arrivals[..|arrivals| - 1]) + if arrivals[|arrivals| - 1].TimedOut? then 1 else 0
  }

  /** How many of the arrivals were ACKs for a packet then in the window and not tagged. */
  function Useful(s: Sender, arrivals: seq<Arrival>): nat
    requires s.Valid()
  {
    if arrivals == [] then 0
    else
      var before := arrivals[..|arrivals| - 1];
      var s1 := After(s, before);
      Useful(s, before) + if s1.phase == Waiting && NewAck(s1.view, arrivals[|arrivals| - 1]) then 1 else 0
  }

  /** A call that is still waiting has seen fewer timeouts than it had retries, and if none at all, then
      as many useful ACKs as packets have been closed. */
  lemma {:induction false} CallIsBounded(s: Sender, arrivals: seq<Arrival>)
    requires Trimmed(s) && After(s, arrivals).phase == Waiting
    ensures Trimmed(After(s, arrivals))
    ensures Timeouts(arrivals) == s.retry - After(s, arrivals).retry < s.retry
    ensures After(s, arrivals).view.count <= s.view.count
    ensures Timeouts(arrivals) == 0 ==> Useful(s, arrivals) == Open(s.view) - Open(After(s, arrivals).view)
  {
    hide OnArrival, Open, NewAck;
    if arrivals != [] {
      CallIsBounded(s, arrivals[..|arrivals| - 1]);
      TurnLowersMeasure(After(s, arrivals[..|arrivals| - 1]), arrivals[|arrivals| - 1]);
    }
    assert After(s, arrivals).Valid();
  }

  lemma {:induction false} AfterBoth(s: Sender, xs: seq<Arrival>, ys: seq<Arrival>)
    requires s.Valid()
    ensures After(s, xs + ys) == After(After(s, xs), ys)
    ensures After(s, xs).phase != Waiting ==> After(s, xs + ys) == After(s, xs)
  {
    hide OnArrival;
    if ys == [] {
      assert xs + ys == xs;
    } else {
      var before := ys[..|ys| - 1];
      AfterBoth(s, xs, before);
      assert (xs + ys)[..|xs + ys| - 1] == xs + before;
    }
  }

  lemma {:induction false} UntaggedBound(tags: seq<bool>)
    ensures Untagged(tags) <= |tags|
  {
    if tags != [] {
      UntaggedBound(tags[1..]);
    }
  }

  /** TERMINATION. A call of udp_sendtoEx that is still waiting has seen fewer than 1000 timeouts, and
      between two of them, or before the first, no more useful ACKs than there were packets in the window. */
  lemma WholeCall(s: Sender, xs: seq<Arrival>, ys: seq<Arrival>)
    requires s.Valid() && Distinct(s.view.Live()) && After(Begin(s), xs + ys).phase == Waiting
    ensures Timeouts(xs + ys) < 1000
    ensures Timeouts(ys) == 0 ==> Useful(After(Begin(s), xs), ys) <= s.view.count
  {
    hide After, Open;
    assert Begin(s).Valid() && Trimmed(Begin(s));
    AfterBoth(Begin(s), xs, ys);
    CallIsBounded(Begin(s), xs + ys);
    CallIsBounded(Begin(s), xs);
    var s1 := After(Begin(s), xs);
    CallIsBounded(s1, ys);
    OpenBound(s1.view);
  }

  lemma OpenBound(v: Window)
    requires v.Valid()
    ensures Open(v) <= v.count
  {
    UntaggedBound(v.acked[..v.count]);
  }

  // ----- the first arrival that ends a call -----

  /** Arrival `k` ends the call; before it all arrivals let it go on, with fewer timeouts than retries. */
  ghost predicate MeetsAt(ends: Arrival -> bool, passes: Arrival -> bool, retries: nat, inbox: seq<Arrival>, k: nat) {
    && k < |inbox| && ends(inbox[k]) && Timeouts(inbox[..k]) < retries
    && forall j | 0 <= j < k :: passes(inbox[j])
  }

  ghost predicate Meets(ends: Arrival -> bool, passes: Arrival -> bool, retries: nat, inbox: seq<Arrival>) {
    exists k :: MeetsAt(ends, passes, retries, inbox, k)
  }

  lemma {:induction false} TimeoutsFirst(inbox: seq<Arrival>)
    requires inbox != []
    ensures Timeouts(inbox) == Timeouts(inbox[1..]) + if inbox[0].TimedOut? then 1 else 0
  {
    if |inbox| > 1 {
      var before := inbox[..|inbox| - 1];
      TimeoutsFirst(before);
      assert before[1..] == inbox[1..][..|inbox| - 2];
    }
  }

  lemma NoTimeouts(inbox: seq<Arrival>)
    ensures Timeouts(inbox[..0]) == 0
  {
  }

  /** The condition read from the front of the inbox. */
  lemma MeetsFirst(ends: Arrival -> bool, passes: Arrival -> bool, retries: nat, inbox: seq<Arrival>)
    requires inbox != []
    ensures Meets(ends, passes, retries, inbox) <==>
            || (retries > 0 && ends(inbox[0]))
            || (passes(inbox[0]) &&
                if inbox[0].TimedOut? then retries > 0 && Meets(ends, passes, retries - 1, inbox[1..])
                else Meets(ends, passes, retries, inbox[1..]))
  {
    hide Timeouts;
    var rest := inbox[1..];
    var less := if inbox[0].TimedOut? then 1 else 0;
    NoTimeouts(inbox);
    forall k: nat | k < |rest| ensures Timeouts(inbox[..k + 1]) == Timeouts(rest[..k]) + less {
      TimeoutsFirst(inbox[..k + 1]);
      assert inbox[..k + 1][1..] == rest[..k];
    }
    if k: nat :| MeetsAt(ends, passes, retries, inbox, k) {
      if k > 0 {
        assert forall j | 0 <= j < k - 1 :: rest[j] == inbox[j + 1];
        assert MeetsAt(ends, passes, retries - less, rest, k - 1);
      }
    }
    if retries >= less && Meets(ends, passes, retries - less, rest) && passes(inbox[0]) {
      var k: nat :| MeetsAt(ends, passes, retries - less, rest, k);
      forall j | 0 <= j < k + 1 ensures passes(inbox[j]) {
        assert j > 0 ==> inbox[j] == rest[j - 1];
      }
      assert MeetsAt(ends, passes, retries, inbox, k + 1);
    }
    if retries > 0 && ends(inbox[0]) {
      assert MeetsAt(ends, passes, retries, inbox, 0);
    }
  }

  lemma MeetsSame(ends: Arrival -> bool, passes: Arrival -> bool, ends': Arrival -> bool, passes': Arrival -> bool,
                  retries: nat, inbox: seq<Arrival>)
    requires forall a :: ends(a) == ends'(a) && passes(a) == passes'(a)
    ensures Meets(ends, passes, retries, inbox) == Meets(ends', passes', retries, inbox)
  {
    hide Timeouts;
    assert forall k: nat :: MeetsAt(ends, passes, retries, inbox, k) == MeetsAt(ends', passes', retries, inbox, k);
  }

  lemma NeverMet(ends: Arrival -> bool, passes: Arrival -> bool, inbox: seq<Arrival>)
    ensures !Meets(ends, passes, 0, inbox)
  {
  }

  lemma NothingMet(ends: Arrival -> bool, passes: Arrival -> bool, retries: nat)
    ensures !Meets(ends, passes, retries, [])
  {
  }
}
