/** How many listings dev/bulkseed/lib/generate.py gives each leaf of the catalogue.  A leaf is its
    place in the alphabet. */
module Targets {
  import opened Modular

  function Max(a: int, b: int): int {
    if a < b then b else a
  }

  /** The share of leaf i when total is spread over n leaves. */
  function Target(total: int, n: nat, i: nat): int
    requires n > 0
  {
    total / n + if i < total % n then 1 else 0
  }

  function TargetsOf(total: int, n: nat): (ts: seq<int>)
    requires n > 0
    ensures |ts| == n && forall i :: 0 <= i < n ==> ts[i] == Target(total, n, i)
  {
    seq(n, i requires 0 <= i < n => Target(total, n, i))
  }

  /** What to generate: the shares themselves, or what they lack. */
  function Needs(total: int, existing: seq<nat>, ignoreExisting: bool): (need: seq<int>)
    requires existing != []
    ensures |need| == |existing|
  {
    seq(|existing|, i requires 0 <= i < |existing| =>
      if ignoreExisting then Target(total, |existing|, i)
      else Max(0, Target(total, |existing|, i) - existing[i]))
  }

  function Sum(s: seq<int>): int {
    if s == [] then 0 else Sum(s[..|s| - 1]) + s[|s| - 1]
  }

  // --------------------------------------------------------------------------------- the targets

  lemma {:induction false} SumOfFirst(total: int, n: nat, m: nat)
    requires 0 < n && m <= n
    ensures Sum(TargetsOf(total, n)[..m]) == m * (total / n) + if m < total % n then m else total % n
  {
    var ts := TargetsOf(total, n);
    if m == 0 {
      assert ts[..0] == [];
    } else {
      SumOfFirst(total, n, m - 1);
      assert ts[..m][..m - 1] == ts[..m - 1];
      assert m * (total / n) == (m - 1) * (total / n) + total / n;
    }
  }

  /** The shares add up to the total, none is more than one above another, and the leaves that come
      first in the alphabet have the larger ones. */
  lemma TargetsAreEven(total: int, n: nat, i: nat, j: nat)
    requires i < n && j < n
    ensures Sum(TargetsOf(total, n)) == total
    ensures Target(total, n, i) - Target(total, n, j) <= 1
    ensures i <= j ==> Target(total, n, i) >= Target(total, n, j)
  {
    SumOfFirst(total, n, n);
    assert TargetsOf(total, n)[..n] == TargetsOf(total, n);
    assert total == n * (total / n) + total % n;
  }

  lemma TargetGrows(small: int, big: int, n: nat, i: nat)
    requires 0 < n && small <= big
    ensures Target(small, n, i) <= Target(big, n, i)
  {
    var p, q := small / n, big / n;
    assert small == p * n + small % n && big == q * n + big % n;
    assert (p - q) * n == p * n - q * n && (q - p) * n == q * n - p * n;
    if p > q {
      AtLeastOnce(p - q, n);
    }
  }

  // ------------------------------------------------------------------------------------- the run

  datatype Listing = Listing(id: nat, leaf: nat)

  function CountOf(rows: seq<Listing>, leaf: nat): nat {
    if rows == [] then 0
    else CountOf(rows[..|rows| - 1], leaf) + if rows[|rows| - 1].leaf == leaf then 1 else 0
  }

  /** The generating loops: ids count on from the first free one, and each leaf gets as many rows as
      it needs, or none if it needs a negative number. */
  method Generate(first: nat, need: seq<int>) returns (rows: seq<Listing>)
    ensures forall k :: 0 <= k < |rows| ==> rows[k].id == first + k && rows[k].leaf < |need|
    ensures forall j, k :: 0 <= j < k < |rows| ==> rows[j].leaf <= rows[k].leaf
    ensures forall i :: 0 <= i < |need| ==> CountOf(rows, i) == Max(0, need[i])
  {
    rows := [];
    var id := first;
    for leaf := 0 to |need|
      invariant id == first + |rows|
      invariant forall k :: 0 <= k < |rows| ==> rows[k].id == first + k && rows[k].leaf < leaf
      invariant forall j, k :: 0 <= j < k < |rows| ==> rows[j].leaf <= rows[k].leaf
      invariant forall i :: 0 <= i < |need| ==> CountOf(rows, i) == if i < leaf then Max(0, need[i]) else 0
    {
      var done := 0;
      while done < need[leaf]
        invariant 0 <= done <= Max(0, need[leaf]) && id == first + |rows|
        invariant forall k :: 0 <= k < |rows| ==> rows[k].id == first + k && rows[k].leaf <= leaf
        invariant forall j, k :: 0 <= j < k < |rows| ==> rows[j].leaf <= rows[k].leaf
        invariant forall i :: 0 <= i < |need| ==>
                    CountOf(rows, i) == if i < leaf then Max(0, need[i]) else if i == leaf then done else 0
      {
        var row := Listing(id, leaf);
        assert (rows + [row])[..|rows|] == rows;
        rows := rows + [row];
        id, done := id + 1, done + 1;
      }
    }
  }

  /** What a run leaves in the catalogue. */
  function After(total: int, existing: seq<nat>, ignoreExisting: bool): (r: seq<nat>)
    requires existing != []
    ensures |r| == |existing|
  {
    seq(|existing|, i requires 0 <= i < |existing| => existing[i] + Max(0, Needs(total, existing, ignoreExisting)[i]))
  }

  /** In the ordinary mode a leaf ends at its target, or where it was if that is more. */
  method Load(total: int, existing: seq<nat>, ignoreExisting: bool, first: nat) returns (rows: seq<Listing>)
    requires existing != []
    ensures forall i :: 0 <= i < |existing| ==>
              existing[i] + CountOf(rows, i) == After(total, existing, ignoreExisting)[i]
    ensures !ignoreExisting ==> forall i :: 0 <= i < |existing| ==>
              existing[i] + CountOf(rows, i) == Max(existing[i], Target(total, |existing|, i))
    ensures ignoreExisting ==> forall i :: 0 <= i < |existing| ==>
              CountOf(rows, i) == Max(0, Target(total, |existing|, i))
    ensures forall k :: 0 <= k < |rows| ==> rows[k].id == first + k && rows[k].leaf < |existing|
  {
    rows := Generate(first, Needs(total, existing, ignoreExisting));
  }

  /** Loading in steps ends where loading at once does: no step hands out the remainder again. */
  lemma StepsAddUp(small: int, big: int, existing: seq<nat>)
    requires existing != [] && small <= big
    ensures After(big, After(small, existing, false), false) == After(big, existing, false)
  {
    var once, twice := After(big, existing, false), After(big, After(small, existing, false), false);
    forall i | 0 <= i < |existing| ensures twice[i] == once[i] {
      TargetGrows(small, big, |existing|, i);
    }
  }

  /** The other mode adds the shares to whatever is there, so two steps add both totals. */
  lemma IgnoringAdds(total: int, existing: seq<nat>)
    requires existing != [] && total >= 0
    ensures Sum(After(total, existing, true)) == Sum(existing) + total
  {
    forall i | 0 <= i < |existing| ensures Target(total, |existing|, i) >= 0 {
      TargetGrows(0, total, |existing|, i);
      ModUnique(0, |existing|, 0, 0);
    }
    TargetsAreEven(total, |existing|, 0, 0);
    SumAdds(existing, TargetsOf(total, |existing|), After(total, existing, true));
  }

  lemma {:induction false} SumAdds(a: seq<int>, b: seq<int>, c: seq<int>)
    requires |a| == |b| == |c| && forall i :: 0 <= i < |a| ==> c[i] == a[i] + b[i]
    ensures Sum(c) == Sum(a) + Sum(b)
  {
    if a != [] {
      var n := |a| - 1;
      SumAdds(a[..n], b[..n], c[..n]);
    }
  }

  /** The catalogue ends at the total exactly when no leaf was over its target. */
  lemma EndsAtTotalIff(total: int, existing: seq<nat>)
    requires existing != []
    ensures Sum(After(total, existing, false)) >= total
    ensures Sum(After(total, existing, false)) == total <==>
            forall i :: 0 <= i < |existing| ==> existing[i] <= Target(total, |existing|, i)
  {
    var n := |existing|;
    var after := After(total, existing, false);
    TargetsAreEven(total, n, 0, 0);
    forall i | 0 <= i < n ensures after[i] >= Target(total, n, i) {
    }
    SumDominates(TargetsOf(total, n), after);
  }

  lemma {:induction false} SumDominates(a: seq<int>, b: seq<int>)
    requires |a| == |b| && forall i :: 0 <= i < |a| ==> a[i] <= b[i]
    ensures Sum(a) <= Sum(b)
    ensures Sum(a) == Sum(b) <==> a == b
  {
    if a != [] {
      var n := |a| - 1;
      SumDominates(a[..n], b[..n]);
      assert a == a[..n] + [a[n]] && b == b[..n] + [b[n]];
    }
  }
}
