/** When the router sends what: a statement about every pass, and one about the life of a delayed packet. */
module RouterTiming {
  import opened RouterSpec

  lemma RunMore<T>(arrivals: seq<Arrival<T>>, a: Arrival<T>)
    ensures var (r, out) := Run(New(), arrivals);
            var (r', more) := Step(r, a);
            Run(New(), arrivals + [a]) == (r', Output(out.peer1 + more.peer1, out.peer2 + more.peer2))
  {
    assert (arrivals + [a])[..|arrivals|] == arrivals;
  }

  function Other(dest: Peer): Peer {
    if dest == Peer1 then Peer2 else Peer1
  }

  /** HELD. A packet that finds the slot empty and is delayed, toward either peer and whatever IsDamage would
      have said, is in the slot after the pass, and nothing has been sent in it. */
  lemma DelayedIsHeld<T>(before: seq<Arrival<T>>, dest: Peer, msg: T, damaged: bool)
    requires Run(New(), before).0.slot.Empty?
    ensures var (r, out) := Run(New(), before + [Packet(dest, msg, true, damaged)]);
            r.slot == Held(msg, dest) && r.waitCount == 0 && out == Run(New(), before).1
  {
    hide Run;
    RunMore(before, Packet(dest, msg, true, damaged));
    Accounting(before);
    var out := Run(New(), before).1;
    assert out.peer1 + [] == out.peer1 && out.peer2 + [] == out.peer2;
  }

  /** AT ONCE. Any other packet is dropped when IsDamage says so; if not, it is sent in the same pass to its
      destination alone, and the packet held for that destination follows it. */
  lemma OthersAtOnce<T>(before: seq<Arrival<T>>, dest: Peer, msg: T, delayed: bool, damaged: bool)
    requires Run(New(), before).0.slot.Held? || !delayed
    ensures var (r, out) := Run(New(), before);
            var (r', out') := Run(New(), before + [Packet(dest, msg, delayed, damaged)]);
            && For(out', Other(dest)) == For(out, Other(dest))
            && For(out', dest) == For(out, dest) + (if damaged then [] else [msg] + HeldFor(r, dest))
            && r'.slot == if !damaged && HeldFor(r, dest) != [] then Empty else r.slot
  {
    hide Run;
    RunMore(before, Packet(dest, msg, delayed, damaged));
    var out := Run(New(), before).1;
    assert out.peer1 + [] == out.peer1 && out.peer2 + [] == out.peer2;
    assert [msg] + [] == [msg];
  }

  /** Pass number k + 1 after the one that stored a packet for `dest` lets it go: a packet for the same peer
      is sent on, or nothing comes in and it is at least the third pass. */
  predicate Frees<T>(a: Arrival<T>, k: nat, dest: Peer) {
    match a
    case Packet(to, _, _, damaged) => to == dest && !damaged
    case Quiet => k + 1 >= 3
  }

  ghost predicate NoneFrees<T>(later: seq<Arrival<T>>, dest: Peer) {
    forall k: nat | k < |later| :: !Frees(later[k], k, dest)
  }

  /** WAITING. As long as no pass lets it go, a stored packet is in the slot and has not been sent, and the
      wait count is the number of passes since. */
  lemma {:induction false} HeldUntilFreed<T>(before: seq<Arrival<T>>, dest: Peer, msg: T, damaged: bool,
                                             later: seq<Arrival<T>>)
    requires Run(New(), before).0.slot.Empty? && NoneFrees(later, dest)
    ensures var (r, out) := Run(New(), before + [Packet(dest, msg, true, damaged)] + later);
            && r.slot == Held(msg, dest) && r.waitCount == |later|
            && For(out, dest) == For(Run(New(), before).1, dest)
  {
    hide Run;
    var stored := before + [Packet(dest, msg, true, damaged)];
    if later == [] {
      DelayedIsHeld(before, dest, msg, damaged);
      assert stored + later == stored;
    } else {
      var k := |later| - 1;
      HeldUntilFreed(before, dest, msg, damaged, later[..k]);
      RunMore(stored + later[..k], later[k]);
      assert stored + later == stored + later[..k] + [later[k]];
      var out := Run(New(), before).1;
      assert out.peer1 + [] == out.peer1 && out.peer2 + [] == out.peer2;
    }
  }

  /** RELEASE. The first pass that lets it go sends it, behind the packet of that pass if there is one, and
      leaves the slot empty. So with nothing sent on to its peer a packet goes out at exactly the first
      quiet pass that is the third or a later one since it was stored. */
  lemma FreedAtOnce<T>(before: seq<Arrival<T>>, dest: Peer, msg: T, damaged: bool, later: seq<Arrival<T>>,
                       a: Arrival<T>)
    requires Run(New(), before).0.slot.Empty? && NoneFrees(later, dest) && Frees(a, |later|, dest)
    ensures var (r, out) := Run(New(), before + [Packet(dest, msg, true, damaged)] + later + [a]);
            && r.slot == Empty && r.waitCount == 0
            && For(out, dest) ==
               For(Run(New(), before).1, dest) + (if a.Packet? then [a.msg] else []) + [msg]
  {
    hide Run;
    HeldUntilFreed(before, dest, msg, damaged, later);
    RunMore(before + [Packet(dest, msg, true, damaged)] + later, a);
    var out := For(Run(New(), before).1, dest);
    if a.Packet? {
      assert out + [a.msg, msg] == out + [a.msg] + [msg];
    } else {
      assert out + [] + [msg] == out + [msg];
    }
  }

  /** EXACTLY THEN. A stored packet is still in the slot with every pass since counted, or has been sent,
      according as no pass since has let it go or one has. */
  lemma HeldExactly<T>(before: seq<Arrival<T>>, dest: Peer, msg: T, damaged: bool, later: seq<Arrival<T>>)
    requires Run(New(), before).0.slot.Empty?
    ensures var stored := before + [Packet(dest, msg, true, damaged)];
            (forall n: nat | n <= |later| ::
               Run(New(), stored + later[..n]).0.slot.Held? && Run(New(), stored + later[..n]).0.waitCount == n)
            <==> NoneFrees(later, dest)
  {
    hide Run;
    var stored := before + [Packet(dest, msg, true, damaged)];
    if NoneFrees(later, dest) {
      forall n: nat | n <= |later|
        ensures Run(New(), stored + later[..n]).0.slot.Held? && Run(New(), stored + later[..n]).0.waitCount == n
      {
        HeldUntilFreed(before, dest, msg, damaged, later[..n]);
      }
    } else {
      var k := FirstFree(later, dest);
      FreedAtOnce(before, dest, msg, damaged, later[..k], later[k]);
      assert stored + later[..k] + [later[k]] == stored + later[..k + 1];
      assert Run(New(), stored + later[..k + 1]).0.slot == Empty;
    }
  }

  lemma FirstFree<T>(later: seq<Arrival<T>>, dest: Peer) returns (k: nat)
    requires !NoneFrees(later, dest)
    ensures k < |later| && Frees(later[k], k, dest) && NoneFrees(later[..k], dest)
  {
    k := 0;
    while !Frees(later[k], k, dest)
      invariant k < |later| && NoneFrees(later[..k], dest)
      decreases |later| - k
    {
      k := k + 1;
    }
  }
}
