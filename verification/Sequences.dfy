/** Parts of a sequence, chosen by flags. */
module Sequences {

  /** The elements of `all` whose flag in `keep` is set. */
  function Pick<T>(all: seq<T>, keep: seq<bool>): (picked: seq<T>)
    requires |all| == |keep|
    ensures |picked| <= |all|
  {
    if all == [] then []
    else Pick(all[..|all| - 1], keep[..|keep| - 1]) + if keep[|keep| - 1] then [all[|all| - 1]] else []
  }

  function Opposite(keep: seq<bool>): (other: seq<bool>)
    ensures |other| == |keep|
  {
    seq(|keep|, i requires 0 <= i < |keep| => !keep[i])
  }

  lemma PickOneMore<T>(all: seq<T>, keep: seq<bool>, msg: T, k: bool)
    requires |all| == |keep|
    ensures Pick(all + [msg], keep + [k]) == Pick(all, keep) + if k then [msg] else []
  {
    assert (all + [msg])[..|all|] == all && (keep + [k])[..|keep|] == keep;
  }

  lemma OppositeOneMore(keep: seq<bool>, k: bool)
    ensures Opposite(keep + [k]) == Opposite(keep) + [!k]
  {
  }

  /** Every element is picked by the flags or by their opposites. */
  lemma {:induction false} PickOrNot<T>(all: seq<T>, keep: seq<bool>)
    requires |all| == |keep|
    ensures |Pick(all, keep)| + |Pick(all, Opposite(keep))| == |all|
  {
    if all != [] {
      var k := |keep| - 1;
      PickOrNot(all[..k], keep[..k]);
      assert Opposite(keep)[..k] == Opposite(keep[..k]);
    }
  }

  /** Nothing is missing exactly when every flag is set. */
  lemma {:induction false} PickAll<T>(all: seq<T>, keep: seq<bool>)
    requires |all| == |keep|
    ensures |Pick(all, keep)| == |all| <==> forall i | 0 <= i < |keep| :: keep[i]
    ensures |Pick(all, keep)| == |all| ==> Pick(all, keep) == all
  {
    if all != [] {
      var k := |keep| - 1;
      PickAll(all[..k], keep[..k]);
      assert all == all[..k] + [all[k]];
      assert (forall i | 0 <= i < k :: keep[..k][i]) <==> forall i | 0 <= i < k :: keep[i];
    }
  }

  lemma {:induction false} PickJoin<T>(xs: seq<T>, ys: seq<T>, ks: seq<bool>, ls: seq<bool>)
    requires |xs| == |ks| && |ys| == |ls|
    ensures Pick(xs + ys, ks + ls) == Pick(xs, ks) + Pick(ys, ls)
  {
    hide Pick;
    if ys == [] {
      assert xs + ys == xs && ks + ls == ks && Pick(ys, ls) == [];
    } else {
      var n := |ys| - 1;
      PickJoin(xs, ys[..n], ks, ls[..n]);
      PickOneMore(xs + ys[..n], ks + ls[..n], ys[n], ls[n]);
      PickOneMore(ys[..n], ls[..n], ys[n], ls[n]);
      assert xs + ys == (xs + ys[..n]) + [ys[n]] && ks + ls == (ks + ls[..n]) + [ls[n]];
      assert ys == ys[..n] + [ys[n]] && ls == ls[..n] + [ls[n]];
    }
  }

  /** When no more than one element is missing, one flag alone is not set. */
  lemma OneMissing<T>(all: seq<T>, keep: seq<bool>, i: nat)
    requires |all| == |keep| && i < |keep| && !keep[i] && |Pick(all, keep)| + 1 >= |all|
    ensures |Pick(all, keep)| + 1 == |all| && Pick(all, keep) == all[..i] + all[i + 1..]
    ensures forall j | 0 <= j < |keep| && j != i :: keep[j]
  {
    hide Pick;
    var left, right := keep[..i], keep[i + 1..];
    PickAll(all[..i], left);
    PickAll(all[i + 1..], right);
    PickJoin(all[..i] + [all[i]], all[i + 1..], left + [false], right);
    PickOneMore(all[..i], left, all[i], false);
    assert all == all[..i] + [all[i]] + all[i + 1..] && keep == left + [false] + right;
    assert forall j | i < j < |keep| :: keep[j] == right[j - i - 1];
    assert forall j | 0 <= j < i :: keep[j] == left[j];
  }
}
