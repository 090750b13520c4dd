/** The round-robin cursor of a group spreads any window of publishes evenly. */
module MembusRoundRobin {
  import opened Modular
  import opened MembusProtocol
  import opened MembusDelivery

  /** The indexes chosen are those of a counter that started at `start` and wraps at 2^64. */
  ghost predicate CursorOk(g: Group) {
    && g.subs != [] && g.start < WORD
    && g.next == (g.start + |g.picks|) % WORD
    && Counts(g.picks, g.start, |g.subs|)
  }

  /** Whose turn it is among k when the cursor has been moved x times from zero. */
  function TurnAt(x: nat, k: nat): nat
    requires k > 0
  {
    (x % WORD) % k
  }

  ghost predicate Counts(picks: seq<nat>, start: nat, k: nat)
    requires k > 0
  {
    forall i :: 0 <= i < |picks| ==> picks[i] == TurnAt(start + i, k)
  }

  ghost predicate CursorsOk(b: Bus) {
    forall t, g :: b.Has(t, g) ==> CursorOk(b.Groups(t)[g])
  }

  lemma WrapAdd(x: nat)
    ensures (x % WORD + 1) % WORD == (x + 1) % WORD
  {
  }

  lemma AdvanceOk(g: Group)
    requires CursorOk(g)
    ensures CursorOk(Advance(g, g.next % |g.subs|))
  {
    WrapAdd(g.start + |g.picks|);
  }

  lemma CursorsKept(b: Bus, step: Step)
    requires Enabled(b, step) && TopicsOk(b) && CursorsOk(b)
    ensures CursorsOk(Apply(b, step))
  {
    var q := Apply(b, step);
    forall t, g | q.Has(t, g) ensures CursorOk(q.Groups(t)[g]) {
      if step.Choose? && step.g == g && b.active[step.p].topic == t {
        AdvanceOk(b.Groups(t)[g]);
      } else if !step.Subscribe? || step.t != t || step.g != g {
        assert b.Has(t, g) && q.Groups(t)[g] == b.Groups(t)[g];
      } else {
        assert b.Has(t, g) ==> CursorOk(b.Groups(t)[g]);
      }
    }
  }

  // ------------------------------------------------------------------------------ counting picks

  function Times(s: seq<nat>, r: nat): nat {
    if s == [] then 0 else Times(s[..|s| - 1], r) + if s[|s| - 1] == r then 1 else 0
  }

  /** How often a counter going from x to x + m meets remainder r modulo k. */
  function Hits(x: nat, m: nat, k: nat, r: nat): nat
    requires k > 0
  {
    if m == 0 then 0 else Hits(x, m - 1, k, r) + if (x + m - 1) % k == r then 1 else 0
  }

  /** Any k numbers in a row meet r exactly once. */
  lemma {:induction false} HitsWithinCycle(x: nat, m: nat, k: nat, r: nat)
    requires r < k && m <= k
    ensures Hits(x, m, k, r) == if (r - x) % k < m then 1 else 0
  {
    if m != 0 {
      HitsWithinCycle(x, m - 1, k, r);
      HitAt(x, k, r, m - 1);
    }
  }

  lemma {:induction false} HitsConcat(x: nat, m: nat, n: nat, k: nat, r: nat)
    requires k > 0
    ensures Hits(x, m + n, k, r) == Hits(x, m, k, r) + Hits(x + m, n, k, r)
  {
    if n != 0 {
      HitsConcat(x, m, n - 1, k, r);
      assert m + n - 1 == m + (n - 1) && x + (m + n) - 1 == (x + m) + n - 1;
    }
  }

  lemma {:induction false} HitsEven(x: nat, m: nat, k: nat, r: nat)
    requires r < k
    ensures m / k <= Hits(x, m, k, r) <= m / k + if m % k == 0 then 0 else 1
    decreases m
  {
    if m < k {
      HitsWithinCycle(x, m, k, r);
      ModUnique(m, k, 0, m);
    } else {
      HitsWithinCycle(x, k, k, r);
      HitsConcat(x, k, m - k, k, r);
      HitsEven(x + k, m - k, k, r);
      DivStep(m, k);
    }
  }

  /** How often it is r's turn among k when the cursor moves from x to x + m. */
  function Turns(x: nat, m: nat, k: nat, r: nat): nat
    requires k > 0
  {
    if m == 0 then 0 else Turns(x, m - 1, k, r) + if TurnAt(x + m - 1, k) == r then 1 else 0
  }

  /** Rounded down or up. */
  predicate Even(m: nat, k: nat, c: nat)
    requires k > 0
  {
    m / k <= c <= m / k + if m % k == 0 then 0 else 1
  }

  /** The cursor does not wrap on the way, or wrapping does not show. */
  predicate Straight(x: nat, m: nat, k: nat)
    requires k > 0
  {
    x + m <= WORD || WORD % k == 0
  }

  lemma TurnIsRemainder(x: nat, k: nat)
    requires k > 0 && Straight(x, 1, k)
    ensures TurnAt(x, k) == x % k
  {
    if x < WORD {
      assert x % WORD == x;
    } else {
      WrapAtMultiple(x, WORD, k);
    }
  }

  lemma {:induction false} TurnsAreHits(x: nat, m: nat, k: nat, r: nat)
    requires k > 0 && Straight(x, m, k)
    ensures Turns(x, m, k, r) == Hits(x, m, k, r)
  {
    if m != 0 {
      TurnsAreHits(x, m - 1, k, r);
      TurnIsRemainder(x + m - 1, k);
    }
  }

  lemma TurnsAreEven(x: nat, m: nat, k: nat, r: nat)
    requires r < k && Straight(x, m, k)
    ensures Even(m, k, Turns(x, m, k, r))
  {
    TurnsAreHits(x, m, k, r);
    HitsEven(x, m, k, r);
  }

  lemma {:induction false} TurnsGrow(x: nat, m: nat, n: nat, k: nat, r: nat)
    requires k > 0 && m <= n
    ensures Turns(x, m, k, r) <= Turns(x, n, k, r)
  {
    if m < n {
      TurnsGrow(x, m, n - 1, k, r);
    }
  }

  lemma BeforeTheWrap(w: nat, k: nat) returns (r: nat)
    requires k > 0 && w % k != 0
    ensures r + 1 < k && r < w && (w - 1) % k == r
  {
    var q, u := w / k, w % k;
    assert w == q * k + u && 0 < u < k;
    r := u - 1;
    ModUnique(w - 1, k, q, r);
    assert q >= 0 && q * k >= 0;
  }

  lemma NotEven(m: nat, k: nat, c: nat)
    requires 0 < m <= k && c >= 2
    ensures !Even(m, k, c)
  {
    if m < k {
      ModUnique(m, k, 0, m);
    } else {
      ModUnique(m, k, 1, 0);
    }
  }

  /** At the wrap the same subscription is served twice within one round. */
  lemma UnevenAtTheWrap(k: nat) returns (m: nat, r: nat)
    requires k > 0 && WORD % k != 0
    ensures r < k && !Even(m, k, Turns(WORD - 1, m, k, r))
  {
    r := BeforeTheWrap(WORD, k);
    m := r + 2;
    TurnIsRemainder(WORD - 1, k);
    AfterTheWrap(r, k);
    assert Turns(WORD - 1, 1, k, r) == 1;
    TurnsGrow(WORD - 1, 1, r + 1, k, r);
    assert (WORD - 1) + m - 1 == WORD + r;
    NotEven(m, k, Turns(WORD - 1, m, k, r));
  }

  lemma AfterTheWrap(r: nat, k: nat)
    requires r < k && r < WORD
    ensures TurnAt(WORD + r, k) == r
  {
    ModUnique(WORD + r, WORD, 1, r);
    ModUnique(r, k, 0, r);
  }

  /** Every window gives everybody an equal share, rounded down or up, exactly when the group's size
      divides 2^64; otherwise the windows across a wrap do not. */
  lemma SharesAreEvenIff(k: nat)
    requires k > 0
    ensures (forall x: nat, m: nat, r: nat :: r < k ==> Even(m, k, Turns(x, m, k, r))) <==> WORD % k == 0
  {
    if WORD % k == 0 {
      forall x: nat, m: nat, r: nat | r < k ensures Even(m, k, Turns(x, m, k, r)) {
        TurnsAreEven(x, m, k, r);
      }
    } else {
      var m, r := UnevenAtTheWrap(k);
    }
  }

  lemma {:induction false} TimesAreTurns(s: seq<nat>, x: nat, k: nat, r: nat)
    requires k > 0 && Counts(s, x, k)
    ensures Times(s, r) == Turns(x, |s|, k, r)
  {
    if s != [] {
      var n := |s| - 1;
      TimesAreTurns(s[..n], x, k, r);
      assert s[n] == TurnAt(x + n, k);
      assert x + |s| - 1 == x + n;
    }
  }

  lemma CountsWithin(picks: seq<nat>, start: nat, k: nat, a: nat, m: nat)
    requires k > 0 && Counts(picks, start, k) && a + m <= |picks|
    ensures Counts(picks[a..a + m], start + a, k)
  {
    var s := picks[a..a + m];
    forall i | 0 <= i < |s| ensures s[i] == TurnAt(start + a + i, k) {
      assert start + (a + i) == start + a + i;
    }
  }

  /** While a group's subscriptions stay the same, any m publishes in a row give each of them an
      equal share, rounded down or up. */
  lemma EvenlySpread(g: Group, a: nat, m: nat, r: nat)
    requires CursorOk(g) && a + m <= |g.picks| && r < |g.subs| && Straight(g.start + a, m, |g.subs|)
    ensures Even(m, |g.subs|, Times(g.picks[a..a + m], r))
  {
    CountsWithin(g.picks, g.start, |g.subs|, a, m);
    TimesAreTurns(g.picks[a..a + m], g.start + a, |g.subs|, r);
    TurnsAreEven(g.start + a, m, |g.subs|, r);
  }
}
