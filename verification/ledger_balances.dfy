/** Running balances over a list of movements, and how they behave under merging and sorting. */
module LedgerBalances {
  import opened LedgerSort

  function AvailableBy(m: Move, a: Account): int {
    if m.account == a then m.available else 0
  }

  function HeldBy(m: Move, a: Account): int {
    if m.account == a then m.held else 0
  }

  /** Account a's available balance after the movements of s. */
  function Available(s: seq<Move>, a: Account): int {
    if s == [] then 0 else Available(s[..|s| - 1], a) + AvailableBy(s[|s| - 1], a)
  }

  function Held(s: seq<Move>, a: Account): int {
    if s == [] then 0 else Held(s[..|s| - 1], a) + HeldBy(s[|s| - 1], a)
  }

  /** All the money in the wallets after the movements of s. */
  function Total(s: seq<Move>): int {
    if s == [] then 0 else Total(s[..|s| - 1]) + s[|s| - 1].available + s[|s| - 1].held
  }

  /** No movement takes its account's available or held balance below zero. */
  ghost predicate NonNegative(s: seq<Move>) {
    forall n, a :: 0 <= n <= |s| ==> Available(s[..n], a) >= 0 && Held(s[..n], a) >= 0
  }

  lemma {:induction false} BalanceConcat(s: seq<Move>, t: seq<Move>, a: Account)
    ensures Available(s + t, a) == Available(s, a) + Available(t, a)
    ensures Held(s + t, a) == Held(s, a) + Held(t, a)
    ensures Total(s + t) == Total(s) + Total(t)
  {
    if t == [] {
      assert s + t == s;
    } else {
      BalanceConcat(s, t[..|t| - 1], a);
      assert (s + t)[..|s + t| - 1] == s + t[..|t| - 1];
    }
  }

  lemma BalanceCons(m: Move, s: seq<Move>, a: Account)
    ensures Available([m] + s, a) == AvailableBy(m, a) + Available(s, a)
    ensures Held([m] + s, a) == HeldBy(m, a) + Held(s, a)
    ensures Total([m] + s) == m.available + m.held + Total(s)
  {
    BalanceConcat([m], s, a);
    assert [m][..0] == [];
  }

  /** z consists of the movements of p and of q, each in their order. */
  ghost predicate Interleaves(z: seq<Move>, p: seq<Move>, q: seq<Move>)
    decreases |z|
  {
    if z == [] then p == [] && q == []
    else
      || (p != [] && z[0] == p[0] && Interleaves(z[1..], p[1..], q))
      || (q != [] && z[0] == q[0] && Interleaves(z[1..], p, q[1..]))
  }

  lemma {:induction false} InterleavesAlone(z: seq<Move>)
    ensures Interleaves(z, z, []) && Interleaves(z, [], z)
  {
    if z != [] {
      InterleavesAlone(z[1..]);
    }
  }

  lemma {:induction false} InterleavesTotals(z: seq<Move>, p: seq<Move>, q: seq<Move>, a: Account)
    requires Interleaves(z, p, q)
    ensures Available(z, a) == Available(p, a) + Available(q, a)
    ensures Held(z, a) == Held(p, a) + Held(q, a)
    ensures Total(z) == Total(p) + Total(q)
    decreases |z|
  {
    if z != [] {
      assert z == [z[0]] + z[1..];
      BalanceCons(z[0], z[1..], a);
      if p != [] && z[0] == p[0] && Interleaves(z[1..], p[1..], q) {
        InterleavesTotals(z[1..], p[1..], q, a);
        assert p == [p[0]] + p[1..];
        BalanceCons(p[0], p[1..], a);
      } else {
        InterleavesTotals(z[1..], p, q[1..], a);
        assert q == [q[0]] + q[1..];
        BalanceCons(q[0], q[1..], a);
      }
    }
  }

  /** The first n movements of a merge are the first i of one side and the first j of the other. */
  lemma {:induction false} MergePrefix(x: seq<Move>, y: seq<Move>, n: nat) returns (i: nat, j: nat)
    requires n <= |Merge(x, y)|
    ensures i <= |x| && j <= |y|
    ensures n == |Merge(x, y)| ==> i == |x| && j == |y|
    ensures Interleaves(Merge(x, y)[..n], x[..i], y[..j])
    decreases |x| + |y|
  {
    var z := Merge(x, y);
    if n == 0 || x == [] || y == [] {
      i, j := if y == [] then n else 0, if y == [] then 0 else n;
      InterleavesAlone(z[..n]);
    } else if x[0].at <= y[0].at {
      i, j := MergePrefix(x[1..], y, n - 1);
      i := i + 1;
      assert z[..n][1..] == Merge(x[1..], y)[..n - 1];
      assert x[..i][1..] == x[1..][..i - 1];
    } else {
      i, j := MergePrefix(x, y[1..], n - 1);
      j := j + 1;
      assert z[..n][1..] == Merge(x, y[1..])[..n - 1];
      assert y[..j][1..] == y[1..][..j - 1];
    }
  }

  /** Merging ledgers that never go negative gives one that never does. */
  lemma MergeNonNegative(x: seq<Move>, y: seq<Move>)
    requires NonNegative(x) && NonNegative(y)
    ensures NonNegative(Merge(x, y))
  {
    forall n, a | 0 <= n <= |Merge(x, y)|
      ensures Available(Merge(x, y)[..n], a) >= 0 && Held(Merge(x, y)[..n], a) >= 0
    {
      var i, j := MergePrefix(x, y, n);
      InterleavesTotals(Merge(x, y)[..n], x[..i], y[..j], a);
    }
  }

  lemma MergeTotals(x: seq<Move>, y: seq<Move>, a: Account)
    ensures Available(Merge(x, y), a) == Available(x, a) + Available(y, a)
    ensures Held(Merge(x, y), a) == Held(x, a) + Held(y, a)
    ensures Total(Merge(x, y)) == Total(x) + Total(y)
  {
    var n := |Merge(x, y)|;
    var i, j := MergePrefix(x, y, n);
    InterleavesTotals(Merge(x, y)[..n], x[..i], y[..j], a);
    assert Merge(x, y)[..n] == Merge(x, y) && x[..i] == x && y[..j] == y;
  }

  /** Sorting changes no final balance. */
  lemma {:induction false} SortTotals(s: seq<Move>, a: Account)
    ensures Available(Sort(s), a) == Available(s, a)
    ensures Held(Sort(s), a) == Held(s, a)
    ensures Total(Sort(s)) == Total(s)
  {
    if s != [] {
      SortTotals(s[1..], a);
      MergeTotals([s[0]], Sort(s[1..]), a);
      BalanceConcat([s[0]], s[1..], a);
      assert s == [s[0]] + s[1..];
    }
  }
}
