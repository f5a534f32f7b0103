/** How sending calls begin and end: told by what comes in and what goes out. */
module CallEnds {
  import opened Protocol
  import opened SenderSpec
  import opened Termination
  import AckOrder

  // ----- the number of retries -----

  /** While a call waits it has one retry less than 1000 for each timeout. */
  lemma {:induction false} RetriesLeft(s: Sender, arrivals: seq<Arrival>)
    requires s.Valid()
    ensures var t := After(Begin(s), arrivals);
            t.phase == Waiting ==> t.retry == 1000 - Timeouts(arrivals)
  {
    hide OnArrival;
    if arrivals != [] {
      RetriesLeft(s, arrivals[..|arrivals| - 1]);
    }
  }

  /** RETRIES. With nothing but timeouts a call waits on after 999 of them, and the 1000th fails it. */
  lemma {:induction false} FailsAtThousand(s: Sender, k: nat)
    requires s.Valid()
    ensures After(Begin(s), seq(k, _ => TimedOut)).phase == if k < 1000 then Waiting else Failed
  {
    var arrivals := seq(k, _ => TimedOut);
    if k > 0 {
      FailsAtThousand(s, k - 1);
      assert arrivals[..k - 1] == seq(k - 1, _ => TimedOut) && arrivals[k - 1] == TimedOut;
      RetriesLeft(s, arrivals[..k - 1]);
      TimeoutsAll(k - 1);
    }
  }

  lemma {:induction false} TimeoutsAll(k: nat)
    ensures Timeouts(seq(k, _ => TimedOut)) == k
  {
    if k > 0 {
      TimeoutsAll(k - 1);
      assert seq(k, _ => TimedOut)[..k - 1] == seq(k - 1, _ => TimedOut);
    }
  }

  // ----- an empty window -----

  function EndsEmpty(): Arrival -> bool {
    (a: Arrival) => a.Datagram? && a.frame.ackType in {Nack, Sack}
  }

  function PassesEmpty(): Arrival -> bool {
    (a: Arrival) => a.TimedOut? || a.frame.ackType in {Request, Handshake}
  }

  lemma {:induction false} ExchangeEmpty(s: Sender, inbox: seq<Arrival>, sent: seq<Frame>)
    requires s.Valid() && s.phase == Waiting && s.view.count == 0
    ensures Exchange(s, inbox, sent).0.phase == Idle <==> Meets(EndsEmpty(), PassesEmpty(), s.retry, inbox)
    decreases s.retry, |inbox|
  {
    hide Exchange, Meets;
    if inbox == [] {
      NothingMet(EndsEmpty(), PassesEmpty(), s.retry);
    } else {
      var (s', rest, sent') := OneTurn(s, inbox, sent);
      ExchangeTurn(s, inbox, sent);
      MeetsFirst(EndsEmpty(), PassesEmpty(), s.retry, inbox);
      if s'.phase == Waiting {
        ExchangeEmpty(s', rest, sent');
      } else {
        ExchangeOver(s', rest, sent');
        NeverMet(EndsEmpty(), PassesEmpty(), rest);
      }
    }
  }

  /** Arrival `k` is the first ACK, NACK or SACK, and no ACK; fewer than 1000 timeouts come before it. */
  ghost predicate RefusedFirst(inbox: seq<Arrival>, k: nat) {
    && k < |inbox| && inbox[k].Datagram? && inbox[k].frame.ackType in {Nack, Sack} && Timeouts(inbox[..k]) < 1000
    && forall j | 0 <= j < k :: inbox[j].TimedOut? || inbox[j].frame.ackType in {Request, Handshake}
  }

  /** EMPTY WINDOW. A transmission of an empty window succeeds if and only if a NACK or SACK comes before any
      ACK and before 1000 timeouts; so one ACK, as complete as it may be, makes it fail. */
  lemma EmptyTransmission(s: Sender, inbox: seq<Arrival>, sent: seq<Frame>)
    requires s.Valid() && s.view.count == 0
    ensures var r := Transmission(s, inbox, sent).0;
            && (r.phase == Idle <==> exists k :: RefusedFirst(inbox, k)) && (r.phase == Failed <==> r.phase != Idle)
            && r.view.count == 0
  {
    hide Exchange, Timeouts;
    ExchangeEmpty(Begin(s), inbox, sent + Burst(s.view));
    ExchangeFewer(Begin(s), inbox, sent + Burst(s.view));
    assert forall k: nat :: MeetsAt(EndsEmpty(), PassesEmpty(), 1000, inbox, k) == RefusedFirst(inbox, k);
  }

  // ----- single datagrams -----

  /** NACK. A NACK or SACK for the packet before the k + 1st ends the call: the first k + 1 packets have left
      the window, the others are there as they were, nothing is sent and nothing more is read. */
  lemma NackLeaves(s: Sender, f: Frame, more: seq<Arrival>, sent: seq<Frame>, k: nat)
    requires s.Valid() && s.phase == Waiting && f.ackType in {Nack, Sack} && k < s.view.count
    requires s.view.slots[k].seqNum == Low5(f.seqNum - 1)
    requires forall j: nat | j < k :: s.view.slots[j].seqNum != Low5(f.seqNum - 1)
    ensures var (t, rest, out) := Exchange(s, [Datagram(f)] + more, sent);
            t.phase == Idle && t.view.Live() == s.view.Live()[k + 1..] && rest == more && out == sent
  {
    hide Exchange, Shift;
    var inbox := [Datagram(f)] + more;
    assert NextArrival(inbox) == Datagram(f) && LaterArrivals(inbox) == more && sent + [] == sent;
    assert forall j: nat | j <= k :: s.view.Live()[j] == s.view.slots[j];
    assert Find(s.view.Live(), Low5(f.seqNum - 1)) == k;
    ExchangeTurn(s, inbox, sent);
    var t := OnArrival(s, Datagram(f)).0;
    ExchangeOver(t, more, sent);
    AckOrder.ShiftLive(s.view, k + 1);
  }

  /** STRAY PACKET. A packet of the other side that would be next is answered by an ACK with its number, and
      from then on the last packet is not sent again; any other is answered by nothing, and the last packet
      (slot 0 of an empty window) goes out once more, unless it is not sent again any longer. */
  lemma StrayPacket(s: Sender, f: Frame, more: seq<Arrival>, sent: seq<Frame>)
    requires s.Valid() && s.phase == Waiting && f.ackType in {Request, Handshake}
    ensures Exchange(s, [Datagram(f)] + more, sent) ==
            if f.seqNum == (s.lastSeq + 1) % 32 then
              Exchange(s.(waitForAck := true), more, sent + [Frame(f.seqNum, Ack, ZeroData())])
            else if s.waitForAck then Exchange(s, more, sent)
            else Exchange(s, more, sent + [s.view.slots[if s.view.count == 0 then 0 else s.view.count - 1]])
  {
    hide Exchange;
    var inbox := [Datagram(f)] + more;
    assert NextArrival(inbox) == Datagram(f) && LaterArrivals(inbox) == more && sent + [] == sent;
    ExchangeTurn(s, inbox, sent);
  }

  // ----- copying and draining -----

  /** Everything sent before stays in front. */
  lemma {:induction false} ExchangeExtends(s: Sender, inbox: seq<Arrival>, sent: seq<Frame>)
    requires s.Valid()
    ensures sent <= Exchange(s, inbox, sent).2
    decreases if s.phase == Waiting then 1 else 0, s.retry, |inbox|
  {
    hide OnArrival;
    if s.phase == Waiting {
      var (s', rest, sent') := OneTurn(s, inbox, sent);
      ExchangeExtends(s', rest, sent');
    }
  }

  /** The frames of the window as they go out: all live packets, or slot 0 if there is none. */
  function Whole(v: Window): seq<Frame>
    requires v.Valid()
  {
    if v.count == 0 then [v.slots[0]] else v.Live()
  }

  lemma BurstIsWhole(v: Window)
    requires v.Valid()
    ensures Burst(v) == Whole(v)
  {
    assert v.count > 0 ==> v.slots[..v.count - 1] + [v.slots[v.count - 1]] == v.slots[..v.count];
  }

  lemma TransmissionExtends(s: Sender, inbox: seq<Arrival>, sent: seq<Frame>)
    requires s.Valid()
    ensures sent + Whole(s.view) <= Transmission(s, inbox, sent).2
  {
    hide Exchange;
    BurstIsWhole(s.view);
    ExchangeExtends(Begin(s), inbox, sent + Burst(s.view));
  }

  /** DRAINING sends the window at least once, an empty one too. */
  lemma DrainSends(w: Work)
    requires w.tx.Valid()
    ensures w.sent + Whole(w.tx.view) <= Carry(w, Drain).sent
  {
    hide Transmission;
    TransmissionExtends(w.tx, w.inbox, w.sent);
    var (s1, rest, more) := Transmission(w.tx, w.inbox, w.sent);
    DrainedExtends(s1, rest, more);
  }

  lemma {:induction false} DrainedExtends(s: Sender, inbox: seq<Arrival>, sent: seq<Frame>)
    requires s.Valid()
    ensures sent <= Drained(s, inbox, sent).2
    decreases |inbox|
  {
    hide Transmission;
    TransmissionExtends(s, inbox, sent);
    var (s1, rest, more) := Transmission(s, inbox, sent);
    if s1.phase != Failed && s1.view.count > 0 {
      DrainedExtends(s1, rest, more);
    }
  }

  function Copies(datas: seq<Payload>): (commands: seq<Command>)
    ensures |commands| == |datas|
  {
    seq(|datas|, k requires 0 <= k < |datas| => Copy(datas[k]))
  }

  /** The packets that payloads become when the counter stands at `n`. */
  function Stampeds(n: int, datas: seq<Payload>): (frames: seq<Frame>)
    ensures |frames| == |datas|
  {
    seq(|datas|, k requires 0 <= k < |datas| => Frame((n + k) % 32, Request, datas[k]))
  }

  /** COPYING. As long as the window does not become full, nothing is sent and nothing is read: the payloads
      are stamped one after the other behind those already there. */
  lemma {:induction false} CopiesWait(w: Work, datas: seq<Payload>)
    requires w.tx.Valid() && w.tx.phase == Idle && w.tx.view.count + |datas| < w.tx.view.Size()
    ensures var t := Perform(w, Copies(datas));
            && t.sent == w.sent && t.inbox == w.inbox && t.tx.phase == Idle
            && t.keep == w.keep + seq(|datas|, _ => true)
            && t.tx.view.Live() == w.tx.view.Live() + Stampeds(w.tx.seqNo, datas)
    decreases |datas|
  {
    hide Perform;
    PerformTurn(w, Copies(datas));
    if datas == [] {
      assert w.keep + [] == w.keep && w.tx.view.Live() + [] == w.tx.view.Live();
    } else {
      var w1 := Carry(w, Copy(datas[0]));
      assert Copies(datas)[1..] == Copies(datas[1..]);
      CopyStamps(w, datas[0]);
      CopiesWait(w1, datas[1..]);
      assert w.keep + [true] + seq(|datas| - 1, _ => true) == w.keep + seq(|datas|, _ => true);
      StampedsFirst(w.tx.seqNo, datas);
      assert w.tx.view.Live() + Stampeds(w.tx.seqNo, datas) ==
             w.tx.view.Live() + [Frame(w.tx.seqNo % 32, Request, datas[0])] +
             Stampeds((w.tx.seqNo + 1) % UINT_RANGE, datas[1..]);
    }
  }

  lemma CopyStamps(w: Work, data: Payload)
    requires w.tx.Valid() && w.tx.phase == Idle && w.tx.view.count + 1 < w.tx.view.Size()
    ensures var t := Carry(w, Copy(data));
            && t.sent == w.sent && t.inbox == w.inbox && t.tx.phase == Idle && t.keep == w.keep + [true]
            && t.tx.view.count == w.tx.view.count + 1 && t.tx.seqNo == (w.tx.seqNo + 1) % 0x1_0000_0000
            && t.tx.view.Live() == w.tx.view.Live() + [Frame(w.tx.seqNo % 32, Request, data)]
  {
  }

  lemma StampedsFirst(n: nat, datas: seq<Payload>)
    requires datas != []
    ensures Stampeds(n, datas) == [Frame(n % 32, Request, datas[0])] + Stampeds((n + 1) % UINT_RANGE, datas[1..])
  {
    hide Low5;
    var joined := [Frame(n % 32, Request, datas[0])] + Stampeds((n + 1) % UINT_RANGE, datas[1..]);
    forall k: nat | k < |datas| ensures Stampeds(n, datas)[k] == joined[k] {
      if k > 0 {
        SameLow(n, k - 1);
      }
    }
  }

  lemma SameLow(n: nat, k: nat)
    ensures ((n + 1) % UINT_RANGE + k) % 32 == (n + 1 + k) % 32
  {
    Low5OfUint(n + 1);
    Low5Sum((n + 1) % UINT_RANGE, k);
    Low5Sum(n + 1, k);
  }

  /** FULL. The payload that takes the last place is stamped, and the call sends all packets of the window,
      each once and in order, before it waits. A payload that finds the window full is not stamped, and the
      window goes out without it. */
  lemma FullWindowGoesOut(w: Work, data: Payload)
    requires w.tx.Valid() && w.tx.phase == Idle && w.tx.view.count + 1 >= w.tx.view.Size()
    ensures var t, v, room := Carry(w, Copy(data)), w.tx.view, w.tx.view.count + 1 == w.tx.view.Size();
            && w.sent + v.Live() + (if room then [Frame(w.tx.seqNo % 32, Request, data)] else []) <= t.sent
            && t.keep == w.keep + [room] && t.tx.view.count <= v.Size()
  {
    hide Transmission;
    var s1 := if w.tx.view.count < w.tx.view.Size() then Stamp(w.tx, data) else w.tx;
    TransmissionExtends(s1, w.inbox, w.sent);
    assert s1.view.Live() == w.tx.view.Live() +
           (if w.tx.view.count < w.tx.view.Size() then [Frame(w.tx.seqNo % 32, Request, data)] else []);
  }
}
