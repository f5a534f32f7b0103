/** The router between the two peers (Router.cpp): it drops packets and holds back at most one. */
module RouterSpec {
  import opened Sequences

  /** FileBuf: the single slot for a delayed packet, shared by both directions. */
  datatype Slot<T> = Empty | Held(msg: T, dest: Peer)

  datatype Peer = Peer1 | Peer2

  datatype Router<T> = Router(slot: Slot<T>, waitCount: nat)

  /** One pass of the loop in Router::Run. The two flags are what IsDelayed and IsDamage answer. */
  datatype Arrival<T> = Packet(dest: Peer, msg: T, delayed: bool, damaged: bool) | Quiet

  /** Packets handed to the socket of each peer, in order. */
  datatype Output<T> = Output(peer1: seq<T>, peer2: seq<T>)

  /** A held packet goes out after this many passes that found it waiting, the last one quiet. */
  const WAIT_LIMIT: nat := 3

  function To<T>(dest: Peer, msgs: seq<T>): Output<T> {
    if dest == Peer1 then Output(msgs, []) else Output([], msgs)
  }

  function For<T>(out: Output<T>, dest: Peer): seq<T> {
    if dest == Peer1 then out.peer1 else out.peer2
  }

  /** The packet held for `dest`, as a sequence of at most one. */
  function HeldFor<T>(r: Router<T>, dest: Peer): seq<T> {
    if r.slot.Held? && r.slot.dest == dest then [r.slot.msg] else []
  }

  function OnPacket<T>(r: Router<T>, dest: Peer, msg: T, delayed: bool, damaged: bool): (Router<T>, seq<T>) {
    var waited := if r.slot.Held? then r.waitCount + 1 else r.waitCount;
    if r.slot.Empty? && delayed then (Router(Held(msg, dest), waited), [])
    else if damaged then (Router(r.slot, waited), [])
    else if r.slot.Held? && r.slot.dest == dest then (Router(Empty, 0), [msg, r.slot.msg])
    else (Router(r.slot, waited), [msg])
  }

  function OnQuiet<T>(r: Router<T>): (Router<T>, Output<T>) {
    if r.slot.Empty? then (r, Output([], []))
    else if r.waitCount + 1 >= WAIT_LIMIT then (Router(Empty, 0), To(r.slot.dest, [r.slot.msg]))
    else (Router(r.slot, r.waitCount + 1), Output([], []))
  }

  /** A packet for one peer leaves what is held for the other alone. */
  lemma OtherSlotKept<T>(r: Router<T>, dest: Peer, msg: T, delayed: bool, damaged: bool, other: Peer)
    requires other != dest
    ensures HeldFor(OnPacket(r, dest, msg, delayed, damaged).0, other) == HeldFor(r, other)
  {
  }

  /** The router invents nothing: after a pass, every message of a direction was in it before. */
  lemma PacketMembers<T>(past: seq<T>, r: Router<T>, before: seq<T>, dest: Peer, delayed: bool, damaged: bool)
    requires before != []
    ensures var (r', out) := OnPacket(r, dest, before[0], delayed, damaged);
            forall m | m in past + out || m in HeldFor(r', dest) + before[1..] ::
              m in past || m in HeldFor(r, dest) + before
  {
    assert before == [before[0]] + before[1..];
  }

  lemma QuietMembers<T>(past: seq<T>, r: Router<T>, before: seq<T>, dest: Peer)
    ensures var (r', out) := OnQuiet(r);
            forall m | m in past + For(out, dest) || m in HeldFor(r', dest) + before ::
              m in past || m in HeldFor(r, dest) + before
  {
  }

  function Step<T>(r: Router<T>, a: Arrival<T>): (Router<T>, Output<T>) {
    match a
    case Packet(dest, msg, delayed, damaged) =>
      var (r', out) := OnPacket(r, dest, msg, delayed, damaged);
      (r', To(dest, out))
    case Quiet => OnQuiet(r)
  }

  /** All passes in turn, with everything sent on the way. */
  function Run<T>(r: Router<T>, arrivals: seq<Arrival<T>>): (Router<T>, Output<T>) {
    if arrivals == [] then (r, Output([], []))
    else
      var (r1, out1) := Run(r, arrivals[..|arrivals| - 1]);
      var (r2, out2) := Step(r1, arrivals[|arrivals| - 1]);
      (r2, Output(out1.peer1 + out2.peer1, out1.peer2 + out2.peer2))
  }

  function New<T>(): Router<T> {
    Router(Empty, 0)
  }

  /** The packets that came in for `dest`, in order of arrival. */
  function Input<T>(arrivals: seq<Arrival<T>>, dest: Peer): seq<T> {
    if arrivals == [] then []
    else
      Input(arrivals[..|arrivals| - 1], dest) + Incoming(arrivals[|arrivals| - 1], dest)
  }

  function Incoming<T>(a: Arrival<T>, dest: Peer): seq<T> {
    if a.Packet? && a.dest == dest then [a.msg] else []
  }

  // ----- what the router may do to a stream -----

  /** Part of a stream: a packet in its place, or two neighbours of which the second overtakes the first. */
  datatype Part<T> = InPlace(msg: T) | Overtaken(first: T, second: T)

  function AsReceived<T>(parts: seq<Part<T>>): seq<T> {
    if parts == [] then []
    else
      var p := parts[|parts| - 1];
      AsReceived(parts[..|parts| - 1]) + if p.InPlace? then [p.msg] else [p.first, p.second]
  }

  function AsSent<T>(parts: seq<Part<T>>): seq<T> {
    if parts == [] then []
    else
      var p := parts[|parts| - 1];
      AsSent(parts[..|parts| - 1]) + if p.InPlace? then [p.msg] else [p.second, p.first]
  }

  lemma OneMorePart<T>(parts: seq<Part<T>>, p: Part<T>)
    ensures AsReceived(parts + [p]) == AsReceived(parts) + if p.InPlace? then [p.msg] else [p.first, p.second]
    ensures AsSent(parts + [p]) == AsSent(parts) + if p.InPlace? then [p.msg] else [p.second, p.first]
  {
    assert (parts + [p])[..|parts|] == parts;
  }

  /** What one pass sends, put back in the order of arrival. */
  function Restored<T>(sent: seq<T>): seq<T> {
    if |sent| == 2 then [sent[1], sent[0]] else sent
  }

  /** One pass: the held packet, then the incoming one unless dropped, become what is sent (the held
      packet last) and what is held next. */
  lemma StepShape<T>(r: Router<T>, a: Arrival<T>, dest: Peer) returns (kept: seq<T>)
    ensures kept == [] || kept == Incoming(a, dest)
    ensures var (r', out) := Step(r, a);
            && |For(out, dest)| <= 2
            && HeldFor(r, dest) + kept == Restored(For(out, dest)) + HeldFor(r', dest)
  {
    var (r', out) := Step(r, a);
    kept := if For(out, dest) == [] && HeldFor(r', dest) == HeldFor(r, dest) then [] else Incoming(a, dest);
  }

  /** In every run, what reaches a peer is what was sent to it with some packets removed and then
      some disjoint pairs of neighbours exchanged: no packet is duplicated, altered or invented, and
      a delayed packet is overtaken by at most one other. The packet still held follows all of them. */
  lemma {:induction false} OutputExplained<T>(arrivals: seq<Arrival<T>>, dest: Peer)
    returns (keep: seq<bool>, parts: seq<Part<T>>)
    ensures |keep| == |Input(arrivals, dest)|
    ensures Pick(Input(arrivals, dest), keep) == AsReceived(parts) + HeldFor(Run(New(), arrivals).0, dest)
    ensures For(Run(New(), arrivals).1, dest) == AsSent(parts)
  {
    if arrivals == [] {
      return [], [];
    }
    var before, last := arrivals[..|arrivals| - 1], arrivals[|arrivals| - 1];
    keep, parts := OutputExplained(before, dest);
    var (r, out) := Run(New<T>(), before);
    var kept := StepShape(r, last, dest);
    keep, parts := Extend(Input(before, dest), keep, parts, For(out, dest), HeldFor(r, dest),
                          Incoming(last, dest), kept, For(Step(r, last).1, dest), HeldFor(Step(r, last).0, dest));
  }

  lemma Extend<T>(all: seq<T>, keep: seq<bool>, parts: seq<Part<T>>, out: seq<T>, held: seq<T>,
                  incoming: seq<T>, kept: seq<T>, sent: seq<T>, held': seq<T>)
    returns (keep': seq<bool>, parts': seq<Part<T>>)
    requires |all| == |keep| && Pick(all, keep) == AsReceived(parts) + held && out == AsSent(parts)
    requires |incoming| <= 1 && |sent| <= 2 && (kept == [] || kept == incoming)
    requires held + kept == Restored(sent) + held'
    ensures |keep'| == |all + incoming|
    ensures Pick(all + incoming, keep') == AsReceived(parts') + held'
    ensures out + sent == AsSent(parts')
  {
    hide Pick, AsReceived, AsSent;
    keep', parts' := keep, parts;
    if incoming == [] {
      assert all + incoming == all;
    } else {
      keep' := keep + [kept != []];
      PickOneMore(all, keep, incoming[0], kept != []);
      assert incoming == [incoming[0]];
    }
    assert Pick(all + incoming, keep') == AsReceived(parts) + held + kept;
    assert AsReceived(parts) + held + kept == AsReceived(parts) + (held + kept);
    assert AsReceived(parts) + Restored(sent) + held' == AsReceived(parts) + (Restored(sent) + held');
    if sent == [] {
      assert out + sent == out && AsReceived(parts) + [] == AsReceived(parts);
    } else {
      var p := if |sent| == 2 then Overtaken(sent[1], sent[0]) else InPlace(sent[0]);
      OneMorePart(parts, p);
      parts' := parts + [p];
      assert sent == if |sent| == 2 then [p.second, p.first] else [p.msg];
    }
  }

  // ----- accounting and bounded holding -----

  ghost predicate Valid<T>(r: Router<T>) {
    r.slot.Empty? ==> r.waitCount == 0
  }

  function Packets<T>(arrivals: seq<Arrival<T>>): nat {
    if arrivals == [] then 0
    else Packets(arrivals[..|arrivals| - 1]) + if arrivals[|arrivals| - 1].Packet? then 1 else 0
  }

  function Quiets<T>(arrivals: seq<Arrival<T>>): nat {
    if arrivals == [] then 0
    else Quiets(arrivals[..|arrivals| - 1]) + if arrivals[|arrivals| - 1].Quiet? then 1 else 0
  }

  /** Packets discarded because IsDamage said so, which is asked only of a packet not delayed. */
  function Drops<T>(r: Router<T>, arrivals: seq<Arrival<T>>): nat {
    if arrivals == [] then 0
    else
      var before, last := arrivals[..|arrivals| - 1], arrivals[|arrivals| - 1];
      var at := Run(r, before).0;
      Drops(r, before) +
      if last.Packet? && last.damaged && !(at.slot.Empty? && last.delayed) then 1 else 0
  }

  /** In every run the packets received are those sent on, those dropped and the one still held;
      an empty slot goes with a zero wait count. */
  lemma {:induction false} Accounting<T>(arrivals: seq<Arrival<T>>)
    ensures var (r, out) := Run(New(), arrivals);
            && Valid(r)
            && Packets(arrivals) == |out.peer1| + |out.peer2| + Drops(New(), arrivals) + (if r.slot.Held? then 1 else 0)
  {
    if arrivals != [] {
      Accounting(arrivals[..|arrivals| - 1]);
    }
  }

  /** While a packet stays in the slot it is the same packet, and every quiet pass is counted. */
  lemma {:induction false} WaitCounts<T>(r: Router<T>, arrivals: seq<Arrival<T>>)
    requires r.slot.Held?
    requires forall k | 0 <= k <= |arrivals| :: Run(r, arrivals[..k]).0.slot.Held?
    ensures Run(r, arrivals).0.slot == r.slot
    ensures Run(r, arrivals).0.waitCount >= r.waitCount + Quiets(arrivals)
  {
    if arrivals != [] {
      var before := arrivals[..|arrivals| - 1];
      assert forall k | 0 <= k <= |before| :: before[..k] == arrivals[..k];
      assert arrivals[..|arrivals|] == arrivals;
      WaitCounts(r, before);
    }
  }

  /** A held packet leaves the slot no later than the third quiet pass after it was stored. */
  lemma HoldingIsBounded<T>(r: Router<T>, arrivals: seq<Arrival<T>>)
    requires r.slot.Held? && Quiets(arrivals) >= WAIT_LIMIT
    ensures exists k :: 0 <= k <= |arrivals| && Run(r, arrivals[..k]).0.slot.Empty?
  {
    if forall k | 0 <= k <= |arrivals| :: Run(r, arrivals[..k]).0.slot.Held? {
      LastQuiet(r, arrivals);
    }
  }

  lemma {:induction false} LastQuiet<T>(r: Router<T>, arrivals: seq<Arrival<T>>)
    requires r.slot.Held? && Quiets(arrivals) >= WAIT_LIMIT
    requires forall k | 0 <= k <= |arrivals| :: Run(r, arrivals[..k]).0.slot.Held?
    ensures false
  {
    var before := arrivals[..|arrivals| - 1];
    assert forall k | 0 <= k <= |before| :: before[..k] == arrivals[..k];
    assert arrivals[..|arrivals|] == arrivals;
    if arrivals[|arrivals| - 1].Quiet? {
      WaitCounts(r, before);
    } else {
      LastQuiet(r, before);
    }
  }
}
