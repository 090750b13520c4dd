/** writeLedger as a whole: plan, sort, withdraw, then write one row a movement with its running
    balances, or nothing at all. */
module LedgerWriter {
  import opened Wrappers
  import opened LedgerSort
  import opened LedgerBalances
  import opened LedgerOrders
  import opened LedgerPlan
  import opened LedgerWithdrawals

  datatype Row = Row(move: Move, seqNo: nat, availableAfter: int, heldAfter: int)

  datatype Balance = Balance(available: int, held: int, seqNo: nat, openedAt: Time)

  datatype Written = Ledger(rows: seq<Row>, wallets: map<Account, Balance>) | GoesNegative(at: nat)

  /** How many movements of s are account a's. */
  function Count(s: seq<Move>, a: Account): nat {
    if s == [] then 0 else Count(s[..|s| - 1], a) + if s[|s| - 1].account == a then 1 else 0
  }

  /** When account a's first movement happens. */
  function OpenedAt(s: seq<Move>, a: Account): Option<Time> {
    if s == [] then None
    else if s[0].account == a then Some(s[0].at)
    else OpenedAt(s[1..], a)
  }

  ghost predicate RowsOf(rows: seq<Row>, s: seq<Move>) {
    && |rows| == |s|
    && forall i :: 0 <= i < |s| ==>
         rows[i] == Row(s[i], Count(s[..i + 1], s[i].account),
                        Available(s[..i + 1], s[i].account), Held(s[..i + 1], s[i].account))
  }

  ghost predicate WalletsOf(wallets: map<Account, Balance>, s: seq<Move>) {
    && (forall a :: a in wallets <==> OpenedAt(s, a).Some?)
    && (forall a :: a in wallets ==>
          wallets[a] == Balance(Available(s, a), Held(s, a), Count(s, a), OpenedAt(s, a).value))
  }

  lemma {:induction false} OpenedAtSnoc(s: seq<Move>, m: Move, a: Account)
    ensures OpenedAt(s + [m], a) ==
            if OpenedAt(s, a).Some? then OpenedAt(s, a) else if m.account == a then Some(m.at) else None
  {
    if s == [] {
      assert s + [m] == [m];
    } else {
      assert (s + [m])[1..] == s[1..] + [m];
      OpenedAtSnoc(s[1..], m, a);
    }
  }

  /** A wallet is opened when its account's first movement happens. */
  lemma {:induction false} OpenedAtFirst(s: seq<Move>, a: Account)
    ensures OpenedAt(s, a).None? <==> forall i :: 0 <= i < |s| ==> s[i].account != a
    ensures OpenedAt(s, a).Some? ==> exists i :: 0 <= i < |s| && s[i].account == a && s[i].at == OpenedAt(s, a).value
                                                 && forall j :: 0 <= j < i ==> s[j].account != a
  {
    if s != [] && s[0].account != a {
      OpenedAtFirst(s[1..], a);
      assert forall i :: 0 < i < |s| ==> s[i] == s[1..][i - 1];
      if OpenedAt(s, a).Some? {
        var rest := s[1..];
        var i :| 0 <= i < |rest| && rest[i].account == a && rest[i].at == OpenedAt(s, a).value
                 && forall j :: 0 <= j < i ==> rest[j].account != a;
        assert s[i + 1] == rest[i] && forall j :: 0 <= j < i + 1 ==> s[j] == if j == 0 then s[0] else rest[j - 1];
      }
    }
  }

  lemma {:induction false} NotOpened(s: seq<Move>, a: Account)
    requires OpenedAt(s, a).None?
    ensures Available(s, a) == 0 && Held(s, a) == 0 && Count(s, a) == 0
  {
    if s != [] {
      var front := s[..|s| - 1];
      assert s == front + [s[|s| - 1]];
      OpenedAtSnoc(front, s[|s| - 1], a);
      NotOpened(front, a);
    }
  }

  lemma NonNegativePrefix(s: seq<Move>, n: nat)
    requires n < |s| && NonNegative(s[..n])
    ensures NonNegative(s[..n + 1]) <==>
            Available(s[..n + 1], s[n].account) >= 0 && Held(s[..n + 1], s[n].account) >= 0
    ensures !NonNegative(s[..n + 1]) ==> !NonNegative(s)
  {
    var t := s[..n + 1];
    assert t[..n] == s[..n] && t[..n + 1] == t && s[..n][..n] == s[..n];
    if Available(t, s[n].account) >= 0 && Held(t, s[n].account) >= 0 {
      forall k, a | 0 <= k <= |t| ensures Available(t[..k], a) >= 0 && Held(t[..k], a) >= 0 {
        if k <= n {
          assert t[..k] == s[..n][..k];
        } else {
          assert Available(s[..n][..n], a) >= 0 && Held(s[..n][..n], a) >= 0;
        }
      }
    }
    forall k | 0 <= k <= |t| ensures t[..k] == s[..k] {
    }
  }

  /** The row of movement i, with the balances it leads to. */
  function RowAt(s: seq<Move>, i: nat): Row
    requires i < |s|
  {
    Row(s[i], Count(s[..i + 1], s[i].account), Available(s[..i + 1], s[i].account), Held(s[..i + 1], s[i].account))
  }

  lemma RowsSnoc(rows: seq<Row>, s: seq<Move>, i: nat)
    requires i < |s| && RowsOf(rows, s[..i])
    ensures RowsOf(rows + [RowAt(s, i)], s[..i + 1])
  {
    var before, after := s[..i], s[..i + 1];
    assert after[..i + 1] == after;
    forall k | 0 <= k <= i ensures before[..k] == after[..k] {
    }
  }

  /** The account's balance with one more movement. */
  function Booked(wallets: map<Account, Balance>, m: Move): Balance {
    var b := if m.account in wallets then wallets[m.account] else Balance(0, 0, 0, m.at);
    b.(available := b.available + m.available, held := b.held + m.held, seqNo := b.seqNo + 1)
  }

  lemma BookedIs(wallets: map<Account, Balance>, s: seq<Move>, i: nat)
    requires i < |s| && WalletsOf(wallets, s[..i])
    ensures var b, row := Booked(wallets, s[i]), RowAt(s, i);
      b.available == row.availableAfter && b.held == row.heldAfter && b.seqNo == row.seqNo
  {
    assert s[..i + 1] == s[..i] + [s[i]] && s[..i + 1][..i] == s[..i];
    if s[i].account !in wallets {
      NotOpened(s[..i], s[i].account);
    }
  }

  lemma WalletsSnoc(wallets: map<Account, Balance>, s: seq<Move>, i: nat)
    requires i < |s| && WalletsOf(wallets, s[..i])
    ensures WalletsOf(wallets[s[i].account := Booked(wallets, s[i])], s[..i + 1])
  {
    BookedIs(wallets, s, i);
    assert s[..i + 1] == s[..i] + [s[i]] && s[..i + 1][..i] == s[..i];
    forall a ensures OpenedAt(s[..i + 1], a) ==
              if OpenedAt(s[..i], a).Some? then OpenedAt(s[..i], a)
              else if s[i].account == a then Some(s[i].at) else None
    {
      OpenedAtSnoc(s[..i], s[i], a);
    }
  }

  /** Movement i is either the first to overdraw its account, or is written and booked. */
  lemma WriteStep(s: seq<Move>, rows: seq<Row>, wallets: map<Account, Balance>, i: nat)
    requires i < |s| && NonNegative(s[..i]) && RowsOf(rows, s[..i]) && WalletsOf(wallets, s[..i])
    ensures var b := Booked(wallets, s[i]);
      if b.available < 0 || b.held < 0 then !NonNegative(s[..i + 1]) && !NonNegative(s)
      else
        && NonNegative(s[..i + 1])
        && RowsOf(rows + [Row(s[i], b.seqNo, b.available, b.held)], s[..i + 1])
        && WalletsOf(wallets[s[i].account := b], s[..i + 1])
  {
    BookedIs(wallets, s, i);
    NonNegativePrefix(s, i);
    RowsSnoc(rows, s, i);
    WalletsSnoc(wallets, s, i);
  }

  /** The loop over the sorted movements. */
  method WriteRows(s: seq<Move>) returns (w: Written)
    ensures w.Ledger? <==> NonNegative(s)
    ensures w.Ledger? ==> RowsOf(w.rows, s) && WalletsOf(w.wallets, s)
    ensures w.GoesNegative? ==> w.at < |s| && NonNegative(s[..w.at]) && !NonNegative(s[..w.at + 1])
  {
    var rows: seq<Row> := [];
    var state: map<Account, Balance> := map[];
    for i := 0 to |s|
      invariant NonNegative(s[..i]) && RowsOf(rows, s[..i]) && WalletsOf(state, s[..i])
    {
      var m := s[i];
      var b := if m.account in state then state[m.account] else Balance(0, 0, 0, m.at);
      b := b.(available := b.available + m.available, held := b.held + m.held, seqNo := b.seqNo + 1);
      assert b == Booked(state, m);
      WriteStep(s, rows, state, i);
      if b.available < 0 || b.held < 0 {
        return GoesNegative(i);
      }
      rows := rows + [Row(m, b.seqNo, b.available, b.held)];
      state := state[m.account := b];
    }
    assert s[..|s|] == s;
    w := Ledger(rows, state);
  }

  /** The ledger that writeLedger arrives at before it writes anything. */
  function Final(keys: seq<Account>, orders: seq<Order>, amt: Amount, openedAt: Time, ws: seq<Request>): seq<Move> {
    WithdrawAll(Sort(Planned(keys, orders, amt, openedAt)), SHOP, ws)
  }

  /** The loop over the withdrawal requests. */
  method PlanWithdrawals(planned: seq<Move>, a: Account, ws: seq<Request>) returns (moves: seq<Move>)
    ensures moves == WithdrawAll(planned, a, ws)
  {
    moves := planned;
    for i := 0 to |ws|
      invariant moves == WithdrawAll(planned, a, ws[..i])
    {
      assert ws[..i + 1][..i] == ws[..i];
      var low := ComputeMinAvailableFrom(moves, a, ws[i].at);
      var amount := RoundDown(Quotient(low * ws[i].share), STEP);
      if amount > 0 {
        moves := Sort(moves + [WithdrawalMove(a, amount, ws[i].at)]);
      }
    }
    assert ws[..|ws|] == ws;
  }

  lemma FinalSafeIff(keys: seq<Account>, orders: seq<Order>, amt: Amount, openedAt: Time, ws: seq<Request>)
    requires AllNonNegative(amt) && Shares(ws)
    ensures NonNegative(Final(keys, orders, amt, openedAt, ws)) <==>
            AllCovered(Sort(Planned(keys, orders, amt, openedAt)), SHOP, ws)
  {
    PlannedNeverNegative(keys, orders, amt, openedAt);
    SortSafe(Planned(keys, orders, amt, openedAt), ws);
  }

  lemma SortSafe(s: seq<Move>, ws: seq<Request>)
    requires NonNegative(Sort(s)) && Shares(ws)
    ensures NonNegative(WithdrawAll(Sort(s), SHOP, ws)) <==> AllCovered(Sort(s), SHOP, ws)
  {
    SortIsStable(s);
    WithdrawAllSafeIff(Sort(s), SHOP, ws);
  }

  /** Succeeds exactly when every withdrawal is covered by the balance carried into its instant. */
  method WriteLedger(keys: seq<Account>, orders: seq<Order>, amt: Amount, openedAt: Time, ws: seq<Request>)
    returns (w: Written)
    requires AllNonNegative(amt) && Shares(ws)
    ensures w.Ledger? <==> AllCovered(Sort(Planned(keys, orders, amt, openedAt)), SHOP, ws)
    ensures var s := Final(keys, orders, amt, openedAt, ws);
      && (w.Ledger? ==> RowsOf(w.rows, s) && WalletsOf(w.wallets, s))
      && (w.GoesNegative? ==> w.at < |s| && NonNegative(s[..w.at]) && !NonNegative(s[..w.at + 1]))
  {
    var moves := PlanMoves(keys, orders, amt, openedAt);
    moves := PlanWithdrawals(Sort(moves), SHOP, ws);
    FinalSafeIff(keys, orders, amt, openedAt, ws);
    w := WriteRows(moves);
  }

  /** The call the seeder makes: five opening balances, and two withdrawals of the shop. */
  method SeedLedger(now: Time, orders: seq<Order>, amt: Amount) returns (w: Written)
    requires AllNonNegative(amt)
    ensures var planned := Sort(Planned(DEMO_ACCOUNTS, orders, amt, now - CATALOGUE_AGE));
      var ws := [Request(30, now - 20 * DAY), Request(20, now - 16 * HOUR)];
      && (w.Ledger? <==> Covered(planned, SHOP, ws, 0) && Covered(planned, SHOP, ws, 1))
      && (w.Ledger? ==>
            && RowsOf(w.rows, WithdrawAll(planned, SHOP, ws))
            && WalletsOf(w.wallets, WithdrawAll(planned, SHOP, ws)))
  {
    w := WriteLedger(DEMO_ACCOUNTS, orders, amt, now - CATALOGUE_AGE, Cashouts(now));
  }

  const CATALOGUE_AGE := 150 * DAY
  const DEMO_ACCOUNTS: seq<Account> := ["khoa_buyer", SHOP, "huyen_camera", "tuan_sport", "linh_home"]

  function Cashouts(now: Time): seq<Request> {
    [Request(30, now - 20 * DAY), Request(20, now - 16 * HOUR)]
  }

  // ------------------------------------------------------------------- what the rows amount to

  /** The last movement of account a before position n. */
  ghost predicate LastBefore(s: seq<Move>, a: Account, n: nat, j: nat)
    requires n <= |s|
  {
    j < n && s[j].account == a && forall i :: j < i < n ==> s[i].account != a
  }

  lemma {:induction false} QuietSpan(s: seq<Move>, a: Account, j: nat, n: nat)
    requires j <= n <= |s| && forall i :: j <= i < n ==> s[i].account != a
    ensures Available(s[..n], a) == Available(s[..j], a) && Held(s[..n], a) == Held(s[..j], a)
    ensures Count(s[..n], a) == Count(s[..j], a)
  {
    if j < n {
      assert s[..n][..n - 1] == s[..n - 1];
      QuietSpan(s, a, j, n - 1);
    }
  }

  lemma {:induction false} HasLast(s: seq<Move>, a: Account, n: nat) returns (j: nat)
    requires n <= |s| && Count(s[..n], a) > 0
    ensures LastBefore(s, a, n, j)
  {
    assert s[..n][..n - 1] == s[..n - 1];
    if s[n - 1].account == a {
      j := n - 1;
    } else {
      j := HasLast(s, a, n - 1);
    }
  }

  /** An account's rows are numbered 1, 2, 3, ... and each balance is the previous one plus its
      delta. */
  lemma RowsChain(s: seq<Move>, rows: seq<Row>, i: nat)
    requires RowsOf(rows, s) && i < |s|
    ensures rows[i].seqNo >= 1
    ensures rows[i].seqNo == 1 ==>
      && rows[i].availableAfter == s[i].available && rows[i].heldAfter == s[i].held
      && forall j :: 0 <= j < i ==> s[j].account != s[i].account
    ensures rows[i].seqNo > 1 ==> exists j: nat :: (
      && LastBefore(s, s[i].account, i, j)
      && rows[i].seqNo == rows[j].seqNo + 1
      && rows[i].availableAfter == rows[j].availableAfter + s[i].available
      && rows[i].heldAfter == rows[j].heldAfter + s[i].held)
  {
    var a := s[i].account;
    assert s[..i + 1][..i] == s[..i];
    if rows[i].seqNo > 1 {
      var j := HasLast(s, a, i);
      QuietSpan(s, a, j + 1, i);
      assert LastBefore(s, a, i, j);
    } else {
      forall j | 0 <= j < i ensures s[j].account != a {
        if s[j].account == a {
          CountPositive(s, a, j, i);
        }
      }
      QuietSpan(s, a, 0, i);
    }
  }

  lemma {:induction false} CountPositive(s: seq<Move>, a: Account, j: nat, n: nat)
    requires j < n <= |s| && s[j].account == a
    ensures Count(s[..n], a) > 0
  {
    assert s[..n][..n - 1] == s[..n - 1];
    if j < n - 1 {
      CountPositive(s, a, j, n - 1);
    }
  }

  /** The wallet columns are those of the account's last row. */
  lemma WalletIsLastRow(s: seq<Move>, rows: seq<Row>, wallets: map<Account, Balance>, a: Account) returns (j: nat)
    requires RowsOf(rows, s) && WalletsOf(wallets, s) && a in wallets
    ensures LastBefore(s, a, |s|, j)
    ensures wallets[a].available == rows[j].availableAfter && wallets[a].held == rows[j].heldAfter
    ensures wallets[a].seqNo == rows[j].seqNo
  {
    assert s[..|s|] == s;
    OpenedCounts(s, a);
    j := HasLast(s, a, |s|);
    QuietSpan(s, a, j + 1, |s|);
  }

  lemma {:induction false} OpenedCounts(s: seq<Move>, a: Account)
    requires OpenedAt(s, a).Some?
    ensures Count(s, a) > 0
  {
    var front, m := s[..|s| - 1], s[|s| - 1];
    assert s == front + [m];
    OpenedAtSnoc(front, m, a);
    if m.account != a {
      OpenedCounts(front, a);
    }
  }

  // ------------------------------------------------------------------- the sum over all wallets

  ghost function SumOver(s: seq<Move>, accounts: set<Account>): int {
    if accounts == {} then 0
    else
      var a :| a in accounts;
      Available(s, a) + Held(s, a) + SumOver(s, accounts - {a})
  }

  lemma {:induction false} SumOverSplit(s: seq<Move>, accounts: set<Account>, x: Account)
    requires x in accounts
    ensures SumOver(s, accounts) == Available(s, x) + Held(s, x) + SumOver(s, accounts - {x})
    decreases accounts
  {
    var a :| a in accounts && SumOver(s, accounts) == Available(s, a) + Held(s, a) + SumOver(s, accounts - {a});
    if a != x {
      SumOverSplit(s, accounts - {a}, x);
      SumOverSplit(s, accounts - {x}, a);
      assert accounts - {a} - {x} == accounts - {x} - {a};
    }
  }

  lemma {:induction false} SumOverQuiet(s: seq<Move>, m: Move, accounts: set<Account>)
    requires m.account !in accounts
    ensures SumOver(s + [m], accounts) == SumOver(s, accounts)
    decreases accounts
  {
    if accounts != {} {
      var x :| x in accounts;
      SumOverSplit(s, accounts, x);
      SumOverSplit(s + [m], accounts, x);
      SumOverQuiet(s, m, accounts - {x});
      assert (s + [m])[..|s|] == s;
    }
  }

  /** The wallets together hold exactly the money the movements moved in. */
  lemma {:induction false} WalletsHoldTheTotal(s: seq<Move>, accounts: set<Account>)
    requires forall m :: m in s ==> m.account in accounts
    ensures SumOver(s, accounts) == Total(s)
  {
    if s == [] {
      NothingToSum(accounts);
    } else {
      var front, m := s[..|s| - 1], s[|s| - 1];
      assert s == front + [m];
      WalletsHoldTheTotal(front, accounts);
      SumOverSplit(front, accounts, m.account);
      SumOverSplit(s, accounts, m.account);
      SumOverQuiet(front, m, accounts - {m.account});
    }
  }

  lemma {:induction false} NothingToSum(accounts: set<Account>)
    ensures SumOver([], accounts) == 0
    decreases accounts
  {
    if accounts != {} {
      var x :| x in accounts;
      SumOverSplit([], accounts, x);
      NothingToSum(accounts - {x});
    }
  }

  /** A written ledger: held balances are the escrow, and all wallets together hold what was paid in
      less the fees kept and the withdrawals. */
  lemma WrittenMoney(keys: seq<Account>, orders: seq<Order>, amt: Amount, openedAt: Time, ws: seq<Request>,
                     accounts: set<Account>, x: Account)
    requires AllNonNegative(amt)
    requires forall m :: m in Final(keys, orders, amt, openedAt, ws) ==> m.account in accounts
    ensures var s := Final(keys, orders, amt, openedAt, ws);
      && Held(s, x) == EscrowOf(orders, amt, x)
      && SumOver(s, accounts) == |keys| * OPENING_BALANCE + PaidIn(orders, amt) - FeesKept(orders, amt)
                                 - Withdrawn(Sort(Planned(keys, orders, amt, openedAt)), SHOP, ws)
  {
    var planned := Sort(Planned(keys, orders, amt, openedAt));
    MoneyIsConserved(keys, orders, amt, openedAt, x);
    WithdrawAllTotals(planned, SHOP, ws, x);
    WalletsHoldTheTotal(Final(keys, orders, amt, openedAt, ws), accounts);
  }
}
