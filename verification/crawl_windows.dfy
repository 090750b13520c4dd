/** From a distance between neighbours to a bound on every window of time. */
module CrawlWindows {
  /** Neighbours are at least d apart. */
  ghost predicate Spaced(ts: seq<real>, d: real) {
    forall i :: 0 < i < |ts| ==> ts[i] >= ts[i - 1] + d
  }

  /** How many of the times fall in a window. */
  function Within(ts: seq<real>, from: real, to: real): nat {
    if ts == [] then 0
    else
      var n := |ts| - 1;
      Within(ts[..n], from, to) + if from <= ts[n] <= to then 1 else 0
  }

  lemma {:induction false} SpacedFurther(ts: seq<real>, d: real, i: nat, n: nat)
    requires Spaced(ts, d) && i + n < |ts|
    ensures ts[i + n] >= ts[i] + n as real * d
  {
    if n > 0 {
      SpacedFurther(ts, d, i, n - 1);
      assert ts[i + n] >= ts[i + n - 1] + d;
      assert n as real * d == (n - 1) as real * d + d;
    }
  }

  /** The times in a window lie between two of them, with at least as many places in between. */
  lemma {:induction false} WindowEnds(ts: seq<real>, from: real, to: real) returns (i: nat, j: nat)
    requires Within(ts, from, to) > 0
    ensures i <= j < |ts| && from <= ts[i] && ts[j] <= to && j - i + 1 >= Within(ts, from, to)
  {
    var n := |ts| - 1;
    if Within(ts[..n], from, to) == 0 {
      i, j := n, n;
    } else {
      i, j := WindowEnds(ts[..n], from, to);
      if from <= ts[n] <= to {
        j := n;
      }
    }
  }

  /** A window of w seconds holds at most w/d + 1 times that are d apart. */
  lemma WindowBound(ts: seq<real>, d: real, from: real, w: real)
    requires Spaced(ts, d) && d > 0.0 && w >= 0.0
    ensures Within(ts, from, from + w) <= (w / d).Floor + 1
  {
    var c := Within(ts, from, from + w);
    if c > 0 {
      var i, j := WindowEnds(ts, from, from + w);
      var n: nat := j - i;
      SpacedFurther(ts, d, i, n);
      assert ts[i + n] == ts[j];
      Quotient(n, d, w);
    }
  }

  lemma Quotient(n: nat, d: real, w: real)
    requires d > 0.0 && n as real * d <= w
    ensures n <= (w / d).Floor
  {
    var q := w / d;
    assert q * d == w;
    assert (n as real - q) * d <= 0.0;
    assert n as real <= q;
  }
}
