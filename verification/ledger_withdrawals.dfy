/** Sizing withdrawals and inserting them into a ledger that is already laid out in time. */
module LedgerWithdrawals {
  import opened Wrappers
  import opened LedgerSort
  import opened LedgerBalances
  import opened Modular

  /** The lowest running balance of account a over its movements at or after `from`. */
  function Lowest(s: seq<Move>, a: Account, from: Time): Option<int> {
    if s == [] then None
    else
      var front, m := s[..|s| - 1], s[|s| - 1];
      var low := Lowest(front, a, from);
      if m.account != a || m.at < from then low
      else if low.Some? && low.value <= Available(s, a) then low
      else Some(Available(s, a))
  }

  function Max(x: int, y: int): (m: int)
    ensures m >= x && m >= y && (m == x || m == y)
  {
    if x >= y then x else y
  }

  function MinAvailableFrom(s: seq<Move>, a: Account, from: Time): int {
    var low := Lowest(s, a, from);
    Max(if low.Some? then low.value else Available(s, a), 0)
  }

  /** Movement i is the account's own and happens at or after `from`. */
  ghost predicate Counts(s: seq<Move>, a: Account, from: Time, i: int) {
    0 <= i < |s| && s[i].account == a && s[i].at >= from
  }

  lemma CountsInFront(s: seq<Move>, a: Account, from: Time, i: nat)
    requires i + 1 < |s|
    ensures var front := s[..|s| - 1];
      && (Counts(s, a, from, i) <==> Counts(front, a, from, i))
      && Available(s[..i + 1], a) == Available(front[..i + 1], a)
  {
    assert s[..|s| - 1][..i + 1] == s[..i + 1];
  }

  /** No such movement leaves less than Lowest, and one leaves it. */
  lemma {:induction false} LowestIsLeast(s: seq<Move>, a: Account, from: Time)
    ensures var low := Lowest(s, a, from);
      && (low.None? <==> forall i :: !Counts(s, a, from, i))
      && (low.Some? ==>
            && (forall i :: Counts(s, a, from, i) ==> Available(s[..i + 1], a) >= low.value)
            && (exists i :: Counts(s, a, from, i) && Available(s[..i + 1], a) == low.value))
  {
    if s != [] {
      var n := |s| - 1;
      var front, low := s[..n], Lowest(s, a, from);
      LowestIsLeast(front, a, from);
      assert s[..n + 1] == s;
      forall i: nat | i < n
        ensures Counts(s, a, from, i) <==> Counts(front, a, from, i)
        ensures Available(s[..i + 1], a) == Available(front[..i + 1], a)
      {
        CountsInFront(s, a, from, i);
      }
      if low.Some? {
        if Counts(s, a, from, n) && Available(s, a) == low.value {
        } else {
          var i :| Counts(front, a, from, i) && Available(front[..i + 1], a) == low.value;
          assert Counts(s, a, from, i);
        }
      }
    }
  }

  /** r is what can be taken from account a at `from` without overdrawing it later: no balance from
      then on is lower, and one is as low, or is below zero if r is zero. */
  ghost predicate Spendable(s: seq<Move>, a: Account, from: Time, r: int) {
    && r >= 0
    && (forall i :: Counts(s, a, from, i) ==> r <= Max(Available(s[..i + 1], a), 0))
    && if forall i :: !Counts(s, a, from, i) then r == Max(Available(s, a), 0)
       else exists i :: Counts(s, a, from, i) && r == Max(Available(s[..i + 1], a), 0)
  }

  lemma MinAvailableIsLeast(s: seq<Move>, a: Account, from: Time)
    ensures Spendable(s, a, from, MinAvailableFrom(s, a, from))
  {
    LowestIsLeast(s, a, from);
    var low := Lowest(s, a, from);
    if low.Some? {
      var i :| Counts(s, a, from, i) && Available(s[..i + 1], a) == low.value;
      assert MinAvailableFrom(s, a, from) == Max(Available(s[..i + 1], a), 0);
    }
  }

  method ComputeMinAvailableFrom(s: seq<Move>, a: Account, from: Time) returns (r: int)
    ensures r == MinAvailableFrom(s, a, from) && Spendable(s, a, from, r)
  {
    var running, lowest, seen := 0, 0, false;
    for i := 0 to |s|
      invariant running == Available(s[..i], a)
      invariant seen == Lowest(s[..i], a, from).Some?
      invariant seen ==> lowest == Lowest(s[..i], a, from).value
    {
      assert s[..i + 1][..i] == s[..i];
      var m := s[i];
      if m.account != a {
        continue;
      }
      running := running + m.available;
      if m.at < from {
        continue;
      }
      if !seen || running < lowest {
        lowest, seen := running, true;
      }
    }
    assert s[..|s|] == s;
    if !seen {
      lowest := running;
    }
    MinAvailableIsLeast(s, a, from);
    r := if lowest >= 0 then lowest else 0;
  }

  /** Go's integer division truncates; v is never negative here and step is positive. */
  function RoundDown(v: int, step: int): int {
    if step <= 0 then v
    else if v >= 0 then v / step * step
    else -((-v) / step * step)
  }

  lemma RoundDownBounds(v: int, step: int)
    requires v >= 0 && step > 0
    ensures 0 <= RoundDown(v, step) <= v && v - RoundDown(v, step) < step
    ensures RoundDown(v, step) % step == 0
  {
    var q, r := v / step, v % step;
    assert v == q * step + r && 0 <= r < step;
    assert q >= 0;
    assert q * step >= 0;
    ModUnique(q * step, step, q, 0);
  }

  const STEP := 500_000

  datatype Request = Request(share: int, at: Time)   // percent of what is spendable from then on

  function Sized(s: seq<Move>, a: Account, w: Request): int {
    RoundDown(Quotient(MinAvailableFrom(s, a, w.at) * w.share), STEP)
  }

  /** Division by 100, truncating. */
  function Quotient(v: int): int {
    if v >= 0 then v / 100 else -((-v) / 100)
  }

  function WithdrawalMove(a: Account, amount: int, at: Time): Move {
    Move(a, Withdrawal, -amount, 0, at)
  }

  /** Appended and sorted in; nothing is planned for an amount that is not positive. */
  function Withdraw(s: seq<Move>, a: Account, w: Request): seq<Move> {
    var amount := Sized(s, a, w);
    if amount <= 0 then s else Sort(s + [WithdrawalMove(a, amount, w.at)])
  }

  function WithdrawAll(s: seq<Move>, a: Account, ws: seq<Request>): seq<Move> {
    if ws == [] then s else Withdraw(WithdrawAll(s, a, ws[..|ws| - 1]), a, ws[|ws| - 1])
  }

  // ---------------------------------------------------------------------------------- insertion

  /** How many movements happen at or before t. */
  function UpTo(s: seq<Move>, t: Time): nat {
    if s == [] || s[0].at > t then 0 else 1 + UpTo(s[1..], t)
  }

  lemma {:induction false} UpToBound(s: seq<Move>, t: Time)
    requires Sorted(s)
    ensures UpTo(s, t) <= |s|
    ensures forall i :: 0 <= i < |s| ==> (i < UpTo(s, t) <==> s[i].at <= t)
  {
    if s != [] && s[0].at <= t {
      UpToBound(s[1..], t);
      forall i | 0 <= i < |s| ensures i < UpTo(s, t) <==> s[i].at <= t {
        if i > 0 {
          assert s[i] == s[1..][i - 1];
        }
      }
    }
  }

  lemma SplitCons(x: Move, s: seq<Move>, k: nat, m: Move)
    requires k <= |s|
    ensures [x] + (s[..k] + [m] + s[k..]) == ([x] + s)[..k + 1] + [m] + ([x] + s)[k + 1..]
  {
  }

  lemma {:induction false} MergeOne(s: seq<Move>, m: Move)
    requires Sorted(s)
    ensures UpTo(s, m.at) <= |s|
    ensures Merge(s, [m]) == s[..UpTo(s, m.at)] + [m] + s[UpTo(s, m.at)..]
  {
    UpToBound(s, m.at);
    if s == [] || s[0].at > m.at {
      assert Merge(s, [m]) == [m] + s;
    } else {
      var rest := s[1..];
      MergeOne(rest, m);
      SplitCons(s[0], rest, UpTo(rest, m.at), m);
      assert s == [s[0]] + rest;
    }
  }

  /** Sorting an appended movement in puts it right after everything up to its instant. */
  lemma InsertedAt(s: seq<Move>, m: Move)
    requires Sorted(s)
    ensures UpTo(s, m.at) <= |s|
    ensures Sort(s + [m]) == s[..UpTo(s, m.at)] + [m] + s[UpTo(s, m.at)..]
  {
    SortConcat(s, [m]);
    SortOfSorted(s);
    SortOfSorted([m]);
    MergeOne(s, m);
  }

  /** The balance carried into instant t, everything at t included. */
  function Carried(s: seq<Move>, a: Account, t: Time): int
    requires UpTo(s, t) <= |s|
  {
    Available(s[..UpTo(s, t)], a)
  }

  lemma {:induction false} InsertedPrefix(s: seq<Move>, k: nat, m: Move, n: nat, a: Account)
    requires k <= |s| && n <= |s| + 1
    ensures var t := s[..k] + [m] + s[k..];
      && (n <= k ==> Available(t[..n], a) == Available(s[..n], a) && Held(t[..n], a) == Held(s[..n], a))
      && (n > k ==>
            && Available(t[..n], a) == Available(s[..n - 1], a) + AvailableBy(m, a)
            && Held(t[..n], a) == Held(s[..n - 1], a) + HeldBy(m, a))
  {
    var t := s[..k] + [m] + s[k..];
    if n <= k {
      assert t[..n] == s[..n];
    } else {
      assert t[..n] == s[..k] + [m] + s[k..n - 1];
      assert s[..n - 1] == s[..k] + s[k..n - 1];
      BalanceConcat(s[..k] + [m], s[k..n - 1], a);
      BalanceConcat(s[..k], [m], a);
      BalanceConcat(s[..k], s[k..n - 1], a);
      assert [m][..0] == [];
    }
  }

  /** A withdrawal leaves the ledger non-negative exactly when it was before and the amount is
      covered by the balance at its own place and at every later one. */
  lemma InsertionSafeIff(s: seq<Move>, k: nat, a: Account, amount: int, at: Time)
    requires k <= |s| && amount >= 0
    ensures NonNegative(s[..k] + [WithdrawalMove(a, amount, at)] + s[k..]) <==>
      NonNegative(s) && forall n :: k <= n <= |s| ==> Available(s[..n], a) >= amount
  {
    var m := WithdrawalMove(a, amount, at);
    var t := s[..k] + [m] + s[k..];
    if NonNegative(t) {
      forall n, x | 0 <= n <= |s| ensures Available(s[..n], x) >= 0 && Held(s[..n], x) >= 0 {
        InsertedPrefix(s, k, m, if n <= k then n else n + 1, x);
        assert Available(t[..if n <= k then n else n + 1], x) >= 0;
      }
      forall n | k <= n <= |s| ensures Available(s[..n], a) >= amount {
        InsertedPrefix(s, k, m, n + 1, a);
        assert Available(t[..n + 1], a) >= 0;
      }
    } else if NonNegative(s) && forall n :: k <= n <= |s| ==> Available(s[..n], a) >= amount {
      forall n, x | 0 <= n <= |t| ensures Available(t[..n], x) >= 0 && Held(t[..n], x) >= 0 {
        InsertedPrefix(s, k, m, n, x);
        if n > k {
          assert Available(s[..n - 1], a) >= amount;
        }
      }
    }
  }

  /** Past its instant, only the account's own movements change a balance, and those were looked
      at by MinAvailableFrom. */
  lemma {:induction false} CoveredLater(s: seq<Move>, a: Account, from: Time, amount: int, n: nat)
    requires Sorted(s) && 0 < amount <= MinAvailableFrom(s, a, from)
    requires UpTo(s, from) <= n <= |s| && Carried(s, a, from) >= amount
    ensures Available(s[..n], a) >= amount
  {
    UpToBound(s, from);
    if n > UpTo(s, from) {
      CoveredLater(s, a, from, amount, n - 1);
      assert s[..n][..n - 1] == s[..n - 1];
      if s[n - 1].account == a {
        LowestIsLeast(s, a, from);
        assert Counts(s, a, from, n - 1) && s[..n - 1 + 1] == s[..n];
      }
    }
  }

  /** An amount no larger than MinAvailableFrom is safe exactly when the balance carried into its
      instant covers it too: that balance is what MinAvailableFrom does not look at. */
  lemma WithdrawalSafeIff(s: seq<Move>, a: Account, amount: int, at: Time)
    requires Sorted(s) && NonNegative(s) && 0 < amount <= MinAvailableFrom(s, a, at)
    ensures UpTo(s, at) <= |s|
    ensures NonNegative(Sort(s + [WithdrawalMove(a, amount, at)])) <==> amount <= Carried(s, a, at)
  {
    InsertedAt(s, WithdrawalMove(a, amount, at));
    var k := UpTo(s, at);
    InsertionSafeIff(s, k, a, amount, at);
    if amount <= Carried(s, a, at) {
      forall n | k <= n <= |s| ensures Available(s[..n], a) >= amount {
        CoveredLater(s, a, at, amount, n);
      }
    }
  }

  // --------------------------------------------------------------------- successive withdrawals

  ghost predicate Shares(ws: seq<Request>) {
    forall i :: 0 <= i < |ws| ==> 0 <= ws[i].share <= 100
  }

  lemma AmountBound(s: seq<Move>, a: Account, w: Request)
    requires 0 <= w.share <= 100
    ensures 0 <= Sized(s, a, w) <= MinAvailableFrom(s, a, w.at)
  {
    var low := MinAvailableFrom(s, a, w.at);
    assert 0 <= low * w.share <= low * 100;
    RoundDownBounds(Quotient(low * w.share), STEP);
  }

  /** A withdrawal is a whole number of steps, and the largest one within its share. */
  lemma SizedIsLargest(s: seq<Move>, a: Account, w: Request)
    requires w.share >= 0
    ensures var amount, low := Sized(s, a, w), MinAvailableFrom(s, a, w.at);
      amount % STEP == 0 && amount * 100 <= low * w.share < (amount + STEP) * 100
  {
    var low := MinAvailableFrom(s, a, w.at);
    var v := low * w.share;
    assert v >= 0;
    assert v == v / 100 * 100 + v % 100;
    RoundDownBounds(Quotient(v), STEP);
  }

  lemma {:induction false} WithdrawKeepsSorted(s: seq<Move>, a: Account, w: Request)
    requires Sorted(s)
    ensures Sorted(Withdraw(s, a, w))
  {
    SortIsStable(s + [WithdrawalMove(a, Sized(s, a, w), w.at)]);
  }

  /** One withdrawal, as the code sizes it, leaves the ledger non-negative exactly when the balance
      carried into its instant covers it and the ledger was non-negative before. */
  lemma WithdrawSafeIff(s: seq<Move>, a: Account, w: Request)
    requires Sorted(s) && 0 <= w.share <= 100
    ensures UpTo(s, w.at) <= |s|
    ensures NonNegative(Withdraw(s, a, w)) <==> NonNegative(s) && Sized(s, a, w) <= Carried(s, a, w.at)
  {
    var amount := Sized(s, a, w);
    AmountBound(s, a, w);
    UpToBound(s, w.at);
    if amount > 0 {
      InsertedAt(s, WithdrawalMove(a, amount, w.at));
      InsertionSafeIff(s, UpTo(s, w.at), a, amount, w.at);
      if NonNegative(s) {
        WithdrawalSafeIff(s, a, amount, w.at);
      }
    }
  }

  /** The i-th request is covered by the balance carried into its instant, in the ledger that the
      requests before it left. */
  ghost predicate Covered(s: seq<Move>, a: Account, ws: seq<Request>, i: nat)
    requires i < |ws|
  {
    var t := WithdrawAll(s, a, ws[..i]);
    UpTo(t, ws[i].at) <= |t| && Sized(t, a, ws[i]) <= Carried(t, a, ws[i].at)
  }

  lemma CoveredFront(s: seq<Move>, a: Account, ws: seq<Request>, n: nat, i: nat)
    requires i < n <= |ws|
    ensures Covered(s, a, ws, i) <==> Covered(s, a, ws[..n], i)
  {
    assert ws[..n][..i] == ws[..i];
  }

  lemma LastCovered(s: seq<Move>, a: Account, ws: seq<Request>)
    requires ws != [] && 0 <= ws[|ws| - 1].share <= 100 && Sorted(WithdrawAll(s, a, ws[..|ws| - 1]))
    ensures Sorted(WithdrawAll(s, a, ws))
    ensures NonNegative(WithdrawAll(s, a, ws)) <==>
              NonNegative(WithdrawAll(s, a, ws[..|ws| - 1])) && Covered(s, a, ws, |ws| - 1)
  {
    var t, w := WithdrawAll(s, a, ws[..|ws| - 1]), ws[|ws| - 1];
    WithdrawKeepsSorted(t, a, w);
    WithdrawSafeIff(t, a, w);
  }

  ghost predicate AllCovered(s: seq<Move>, a: Account, ws: seq<Request>) {
    forall i :: 0 <= i < |ws| ==> Covered(s, a, ws, i)
  }

  lemma AllCoveredSnoc(s: seq<Move>, a: Account, ws: seq<Request>)
    requires ws != []
    ensures AllCovered(s, a, ws) <==> AllCovered(s, a, ws[..|ws| - 1]) && Covered(s, a, ws, |ws| - 1)
  {
    var n := |ws| - 1;
    var front := ws[..n];
    forall i | 0 <= i < n ensures Covered(s, a, ws, i) <==> Covered(s, a, front, i) {
      CoveredFront(s, a, ws, n, i);
    }
    assert AllCovered(s, a, ws) ==> Covered(s, a, ws, n);
    assert AllCovered(s, a, front) <==> forall i :: 0 <= i < n ==> Covered(s, a, front, i);
    assert AllCovered(s, a, ws) <==> (forall i :: 0 <= i < n ==> Covered(s, a, ws, i)) && Covered(s, a, ws, n);
  }

  /** Any number of withdrawals leaves the ledger non-negative exactly when each is covered by the
      balance carried into its instant. */
  lemma {:induction false} WithdrawAllSafeIff(s: seq<Move>, a: Account, ws: seq<Request>)
    requires Sorted(s) && NonNegative(s) && Shares(ws)
    ensures Sorted(WithdrawAll(s, a, ws))
    ensures NonNegative(WithdrawAll(s, a, ws)) <==> AllCovered(s, a, ws)
  {
    if ws != [] {
      WithdrawAllSafeIff(s, a, ws[..|ws| - 1]);
      LastCovered(s, a, ws);
      AllCoveredSnoc(s, a, ws);
    }
  }

  // ------------------------------------------------------------------------------------- totals

  function Withdrawn(s: seq<Move>, a: Account, ws: seq<Request>): int {
    if ws == [] then 0
    else
      var front := ws[..|ws| - 1];
      Withdrawn(s, a, front) + Max(Sized(WithdrawAll(s, a, front), a, ws[|ws| - 1]), 0)
  }

  /** Withdrawals move nothing but their own amounts, out of one account's available balance. */
  lemma {:induction false} WithdrawAllTotals(s: seq<Move>, a: Account, ws: seq<Request>, x: Account)
    ensures Available(WithdrawAll(s, a, ws), x) == Available(s, x) - (if x == a then Withdrawn(s, a, ws) else 0)
    ensures Held(WithdrawAll(s, a, ws), x) == Held(s, x)
    ensures Total(WithdrawAll(s, a, ws)) == Total(s) - Withdrawn(s, a, ws)
  {
    if ws != [] {
      var front, w := ws[..|ws| - 1], ws[|ws| - 1];
      var t := WithdrawAll(s, a, front);
      WithdrawAllTotals(s, a, front, x);
      var m := WithdrawalMove(a, Sized(t, a, w), w.at);
      SortTotals(t + [m], x);
      assert (t + [m])[..|t|] == t;
    }
  }
}
