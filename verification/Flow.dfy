/** The order in which messages of one direction reach their destination through the router. */
module Flow {
  import opened Protocol
  import opened RouterSpec

  /** A message with its unbounded number. For a data packet `num` is its index among the stamped
      packets and `rank` the number of packets stamped when this copy left; for a reply both are the
      number of packets the receiver had accepted when it replied. */
  datatype Msg = Msg(kind: AckType, num: nat, rank: nat)

  /** `past` is behind the router, `rest` is held or in front of it. Ranks were never decreasing when
      sent; behind the router a message can have been overtaken by the one next to it only. */
  ghost predicate Ordered(past: seq<Msg>, rest: seq<Msg>) {
    && (forall i, j | 0 <= i < j < |rest| :: rest[i].rank <= rest[j].rank)
    && (forall i, j | 0 <= i < |past| && 0 <= j < |rest| :: past[i].rank <= rest[j].rank)
    && (forall i, j | 0 <= i && i + 2 <= j < |past| :: past[i].rank <= past[j].rank)
  }

  /** No message ranks below `x`, but the next to arrive may lag by `slack`. */
  ghost predicate Floor(past: seq<Msg>, rest: seq<Msg>, x: int, slack: nat) {
    && (forall j | 0 <= j < |rest| :: x <= rest[j].rank)
    && (forall i | 1 <= i < |past| :: x <= past[i].rank)
    && (past != [] ==> x <= past[0].rank + slack)
  }

  ghost predicate Flows(past: seq<Msg>, rest: seq<Msg>, x: int, slack: nat) {
    Ordered(past, rest) && Floor(past, rest, x, slack)
  }

  /** Messages sent now rank at least as high as all before them. */
  lemma SendKeeps(past: seq<Msg>, rest: seq<Msg>, x: int, slack: nat, more: seq<Msg>, top: nat)
    requires Flows(past, rest, x, slack) && x <= top
    requires forall m | m in past || m in rest :: m.rank <= top
    requires forall m | m in more :: m.rank == top
    ensures Flows(past, rest + more, x, slack)
  {
    forall j | 0 <= j < |more| ensures more[j].rank == top {
      assert more[j] in more;
    }
    forall i | 0 <= i < |past| ensures past[i].rank <= top {
      assert past[i] in past;
    }
    forall i | 0 <= i < |rest| ensures rest[i].rank <= top {
      assert rest[i] in rest;
    }
  }

  /** The destination takes the next message and its own mark rises to at most that message's rank. */
  lemma TakeKeeps(past: seq<Msg>, rest: seq<Msg>, x: int, slack: nat, x': int)
    requires past != [] && Flows(past, rest, x, slack)
    requires x <= x' <= x + slack && (x' <= x || x' <= past[0].rank)
    ensures Flows(past[1..], rest, x', slack)
  {
    var next := past[1..];
    assert forall i | 0 <= i < |next| :: next[i] == past[i + 1];
  }

  lemma LoseKeeps(past: seq<Msg>, rest: seq<Msg>, x: int, slack: nat)
    requires past != [] && Flows(past, rest, x, slack)
    ensures Flows(past[1..], rest, x, slack)
  {
    var next := past[1..];
    assert forall i | 0 <= i < |next| :: next[i] == past[i + 1];
  }

  lemma PassKeeps(past: seq<Msg>, a: Msg, rest: seq<Msg>, x: int, slack: nat)
    requires Flows(past, [a] + rest, x, slack)
    ensures Flows(past + [a], rest, x, slack)
  {
    hide Ordered, Floor;
    PassOrder(past, a, rest);
    PassFloor(past, a, rest, x, slack);
  }

  lemma PassOrder(past: seq<Msg>, a: Msg, rest: seq<Msg>)
    requires Ordered(past, [a] + rest)
    ensures Ordered(past + [a], rest)
  {
    var all, next := [a] + rest, past + [a];
    assert all[0] == a && forall j | 0 <= j < |rest| :: all[j + 1] == rest[j];
    forall i, j | 0 <= i && i + 2 <= j < |next| ensures next[i].rank <= next[j].rank {
      if j == |past| {
        assert past[i].rank <= all[0].rank;
      }
    }
  }

  lemma PassFloor(past: seq<Msg>, a: Msg, rest: seq<Msg>, x: int, slack: nat)
    requires Floor(past, [a] + rest, x, slack)
    ensures Floor(past + [a], rest, x, slack)
  {
    var all := [a] + rest;
    assert all[0] == a && forall j | 0 <= j < |rest| :: all[j + 1] == rest[j];
  }

  lemma OvertakeKeeps(past: seq<Msg>, a: Msg, b: Msg, rest: seq<Msg>, x: int, slack: nat)
    requires Flows(past, [a, b] + rest, x, slack)
    ensures Flows(past + [b, a], rest, x, slack)
  {
    hide Ordered, Floor;
    OvertakeOrder(past, a, b, rest);
    OvertakeFloor(past, a, b, rest, x, slack);
  }

  lemma OvertakeOrder(past: seq<Msg>, a: Msg, b: Msg, rest: seq<Msg>)
    requires Ordered(past, [a, b] + rest)
    ensures Ordered(past + [b, a], rest)
  {
    var all, next := [a, b] + rest, past + [b, a];
    assert all[0] == a && all[1] == b && forall j | 0 <= j < |rest| :: all[j + 2] == rest[j];
    forall i, j | 0 <= i && i + 2 <= j < |next| ensures next[i].rank <= next[j].rank {
      if j >= |past| {
        assert past[i].rank <= all[0].rank && past[i].rank <= all[1].rank;
      }
    }
  }

  lemma OvertakeFloor(past: seq<Msg>, a: Msg, b: Msg, rest: seq<Msg>, x: int, slack: nat)
    requires Floor(past, [a, b] + rest, x, slack)
    ensures Floor(past + [b, a], rest, x, slack)
  {
    var all := [a, b] + rest;
    assert all[0] == a && all[1] == b && forall j | 0 <= j < |rest| :: all[j + 2] == rest[j];
  }

  lemma DropKeeps(past: seq<Msg>, left: seq<Msg>, a: Msg, right: seq<Msg>, x: int, slack: nat)
    requires Flows(past, left + [a] + right, x, slack)
    ensures Flows(past, left + right, x, slack)
  {
    var all, rest := left + [a] + right, left + right;
    forall j | 0 <= j < |rest| ensures rest[j] == all[if j < |left| then j else j + 1] {
    }
  }

  /** A packet from the leg `before` goes through the router toward `dest`. */
  lemma PacketKeeps(past: seq<Msg>, r: Router<Msg>, before: seq<Msg>, dest: Peer,
                    delayed: bool, damaged: bool, x: int, slack: nat)
    requires before != [] && Flows(past, HeldFor(r, dest) + before, x, slack)
    ensures var (r', out) := OnPacket(r, dest, before[0], delayed, damaged);
            Flows(past + out, HeldFor(r', dest) + before[1..], x, slack)
  {
    hide Flows;
    var (r', out) := OnPacket(r, dest, before[0], delayed, damaged);
    var held, held', a, more := HeldFor(r, dest), HeldFor(r', dest), before[0], before[1..];
    assert before == [a] + more;
    if |out| == 2 {
      assert held + before == [held[0], a] + more && held' + more == more;
      OvertakeKeeps(past, held[0], a, more, x, slack);
    } else if |out| == 1 {
      assert held + before == [a] + more && held' + more == more;
      PassKeeps(past, a, more, x, slack);
    } else {
      assert past + out == past && held + before == held + [a] + more;
      if held' == held {
        DropKeeps(past, held, a, more, x, slack);
      } else {
        assert held' + more == held + [a] + more;
      }
    }
  }

  lemma QuietKeeps(past: seq<Msg>, r: Router<Msg>, before: seq<Msg>, dest: Peer, x: int, slack: nat)
    requires Flows(past, HeldFor(r, dest) + before, x, slack)
    ensures var (r', out) := OnQuiet(r);
            Flows(past + For(out, dest), HeldFor(r', dest) + before, x, slack)
  {
    hide Flows;
    var (r', out) := OnQuiet(r);
    if For(out, dest) == [] {
      assert past + [] == past;
    } else {
      assert HeldFor(r', dest) + before == before;
      PassKeeps(past, r.slot.msg, before, x, slack);
    }
  }
}
