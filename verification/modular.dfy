/** Counting in cycles: facts about division that the round robins need. */
module Modular {
  lemma AtLeastOnce(n: int, k: nat)
    requires n >= 1
    ensures n * k >= k
  {
    assert n * k == (n - 1) * k + k;
    assert (n - 1) * k >= 0;
  }

  lemma ModUnique(a: int, k: nat, q: int, r: int)
    requires k > 0 && a == q * k + r && 0 <= r < k
    ensures a % k == r && a / k == q
  {
    var p := a / k;
    var t := a % k;
    assert a == p * k + t && 0 <= t < k;
    assert (p - q) * k == p * k - q * k && (q - p) * k == q * k - p * k;
    if p > q {
      AtLeastOnce(p - q, k);
    } else if p < q {
      AtLeastOnce(q - p, k);
    }
  }

  /** The first number from x on with remainder r is x + d, d the distance modulo k. */
  lemma HitAt(x: nat, k: nat, r: nat, j: nat)
    requires r < k && j < k
    ensures (x + j) % k == r <==> j == (r - x) % k
  {
    var d := (r - x) % k;
    var q := (r - x) / k;
    assert r - x == q * k + d;
    assert x + d == (-q) * k + r by {
      assert (-q) * k == -(q * k);
    }
    ModUnique(x + d, k, -q, r);
    if (x + j) % k == r {
      var p := (x + j) / k;
      assert x + j == p * k + r;
      assert r - x == (-p) * k + j by {
        assert (-p) * k == -(p * k);
      }
      ModUnique(r - x, k, -p, j);
    }
  }

  lemma DivStep(m: nat, k: nat)
    requires 0 < k <= m
    ensures m / k == (m - k) / k + 1 && m % k == (m - k) % k
  {
    var p, t := (m - k) / k, (m - k) % k;
    assert m - k == p * k + t;
    assert (p + 1) * k == p * k + k;
    ModUnique(m, k, p + 1, t);
  }

  /** A counter that wraps at a multiple of k keeps its remainder modulo k. */
  lemma WrapAtMultiple(x: nat, w: nat, k: nat)
    requires 0 < k && 0 < w && w % k == 0
    ensures (x % w) % k == x % k
  {
    var q, t, p := x / w, x % w, w / k;
    var s, u := t / k, t % k;
    assert x == q * w + t && w == p * k && t == s * k + u;
    assert q * (p * k) == (q * p) * k;
    assert (q * p + s) * k == (q * p) * k + s * k;
    ModUnique(x, k, q * p + s, u);
  }
}
