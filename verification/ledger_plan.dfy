/** The ledger of a whole plan before withdrawals: it never goes negative, holds exactly what is in
    escrow, and creates or destroys no money. */
module LedgerPlan {
  import opened LedgerSort
  import opened LedgerBalances
  import opened LedgerOrders

  const OPENING_BALANCE := 3_000_000
  const SHOP: Account := "bob_store"

  type Amount = map<string, Amounts>

  /** A missing key reads as zero amounts. */
  function Of(amt: Amount, o: Order): Amounts {
    if o.key in amt then amt[o.key] else Amounts(0, 0)
  }

  ghost predicate AllNonNegative(amt: Amount) {
    forall k :: k in amt ==> amt[k].NonNegative()
  }

  function Openings(keys: seq<Account>, at: Time): seq<Move> {
    if keys == [] then []
    else Openings(keys[..|keys| - 1], at) + [Move(keys[|keys| - 1], Topup, OPENING_BALANCE, 0, at)]
  }

  function AllLegs(orders: seq<Order>, amt: Amount): seq<Move> {
    if orders == [] then []
    else
      var o := orders[|orders| - 1];
      AllLegs(orders[..|orders| - 1], amt) + Legs(o, Of(amt, o))
  }

  /** The movements in the order they are planned. */
  function Planned(keys: seq<Account>, orders: seq<Order>, amt: Amount, openedAt: Time): seq<Move> {
    Openings(keys, openedAt) + AllLegs(orders, amt)
  }

  /** One turn of the loop over the orders. */
  method PlanOrder(o: Order, a: Amounts) returns (legs: seq<Move>)
    ensures legs == Legs(o, a)
  {
    legs := [Move(o.buyer, Topup, a.total + a.fee, 0, o.createdAt)];
    legs := legs + [Move(o.buyer, EscrowHold, -a.total, 0, o.createdAt + MINUTE),
                    Move(o.seller, EscrowHold, 0, a.total, o.createdAt + MINUTE),
                    Move(o.buyer, Fee, -a.fee, 0, o.createdAt + MINUTE)];
    var tl := TimelineFor(o);
    if o.state == Completed {
      legs := legs + [Move(o.seller, EscrowRelease, a.total, -a.total, tl.payoutAt.value)];
    } else if o.state == Declined || o.state == RefundAccepted {
      var at := tl.cancelledAt.value;
      legs := legs + [Move(o.seller, Refund, 0, -a.total, at), Move(o.buyer, Refund, a.total, 0, at)];
      if o.state == Declined {
        legs := legs + [Move(o.buyer, Refund, a.fee, 0, at)];
      }
    }
  }

  lemma PlannedSnoc(keys: seq<Account>, orders: seq<Order>, amt: Amount, openedAt: Time, i: nat)
    requires i < |orders|
    ensures Planned(keys, orders[..i + 1], amt, openedAt) ==
            Planned(keys, orders[..i], amt, openedAt) + Legs(orders[i], Of(amt, orders[i]))
  {
    assert orders[..i + 1][..i] == orders[..i];
  }

  /** The two loops that plan the movements; the accounts with an opening balance come first. */
  method PlanMoves(keys: seq<Account>, orders: seq<Order>, amt: Amount, openedAt: Time) returns (moves: seq<Move>)
    ensures moves == Planned(keys, orders, amt, openedAt)
  {
    moves := [];
    for i := 0 to |keys|
      invariant moves == Openings(keys[..i], openedAt)
    {
      assert keys[..i + 1][..i] == keys[..i];
      moves := moves + [Move(keys[i], Topup, OPENING_BALANCE, 0, openedAt)];
    }
    assert keys[..|keys|] == keys;
    for i := 0 to |orders|
      invariant moves == Planned(keys, orders[..i], amt, openedAt)
    {
      var legs := PlanOrder(orders[i], Of(amt, orders[i]));
      PlannedSnoc(keys, orders, amt, openedAt, i);
      moves := moves + legs;
    }
    assert orders[..|orders|] == orders;
  }

  lemma {:induction false} OpeningsTotal(keys: seq<Account>, at: Time)
    ensures Total(Openings(keys, at)) == |keys| * OPENING_BALANCE
    ensures forall x :: Held(Openings(keys, at), x) == 0
  {
    if keys != [] {
      OpeningsTotal(keys[..|keys| - 1], at);
    }
  }

  lemma {:induction false} OpeningsSorted(keys: seq<Account>, at: Time)
    ensures Sorted(Openings(keys, at))
    ensures forall m :: m in Openings(keys, at) ==> m.at == at
  {
    if keys != [] {
      OpeningsSorted(keys[..|keys| - 1], at);
    }
  }

  lemma {:induction false} OpeningsNonNegative(keys: seq<Account>, at: Time)
    ensures NonNegative(Openings(keys, at))
  {
    if keys != [] {
      var s := Openings(keys[..|keys| - 1], at);
      var m := Move(keys[|keys| - 1], Topup, OPENING_BALANCE, 0, at);
      OpeningsNonNegative(keys[..|keys| - 1], at);
      assert s[..|s|] == s;
      assert Available(s[..|s|], m.account) >= 0 && Held(s[..|s|], m.account) >= 0;
      NonNegativeSnoc(s, m);
    }
  }

  lemma OpeningsBalances(keys: seq<Account>, at: Time)
    ensures NonNegative(Openings(keys, at)) && Sorted(Openings(keys, at))
    ensures Total(Openings(keys, at)) == |keys| * OPENING_BALANCE
    ensures forall x :: Held(Openings(keys, at), x) == 0
  {
    OpeningsTotal(keys, at);
    OpeningsSorted(keys, at);
    OpeningsNonNegative(keys, at);
  }

  // ------------------------------------------------------------------------------- main results

  lemma AddNonNegative(s: seq<Move>, t: seq<Move>)
    requires NonNegative(Sort(s)) && Sorted(t) && NonNegative(t)
    ensures NonNegative(Sort(s + t))
  {
    SortConcat(s, t);
    SortOfSorted(t);
    MergeNonNegative(Sort(s), t);
  }

  lemma {:induction false} AllLegsNeverNegative(orders: seq<Order>, amt: Amount)
    requires AllNonNegative(amt)
    ensures NonNegative(Sort(AllLegs(orders, amt)))
  {
    if orders != [] {
      var front, o := orders[..|orders| - 1], orders[|orders| - 1];
      AllLegsNeverNegative(front, amt);
      LegsBalances(o, Of(amt, o));
      AddNonNegative(AllLegs(front, amt), Legs(o, Of(amt, o)));
    }
  }

  /** Sorted by time, the planned movements never take an available or held balance below zero,
      however the orders' movements fall between each other. */
  lemma PlannedNeverNegative(keys: seq<Account>, orders: seq<Order>, amt: Amount, openedAt: Time)
    requires AllNonNegative(amt)
    ensures NonNegative(Sort(Planned(keys, orders, amt, openedAt)))
  {
    AllLegsNeverNegative(orders, amt);
    OpeningsBalances(keys, openedAt);
    SortOfSorted(Openings(keys, openedAt));
    SortConcat(Openings(keys, openedAt), AllLegs(orders, amt));
    MergeNonNegative(Openings(keys, openedAt), Sort(AllLegs(orders, amt)));
  }

  /** The goods totals of x's sales that are neither completed, declined nor refunded. */
  function EscrowOf(orders: seq<Order>, amt: Amount, x: Account): int {
    if orders == [] then 0
    else
      var o := orders[|orders| - 1];
      EscrowOf(orders[..|orders| - 1], amt, x) +
      if o.seller == x && InEscrow(o) && o.key in amt then amt[o.key].total else 0
  }

  /** Money paid in for the orders, and delivery fees that were not returned. */
  function PaidIn(orders: seq<Order>, amt: Amount): int {
    if orders == [] then 0
    else
      var o := orders[|orders| - 1];
      PaidIn(orders[..|orders| - 1], amt) + if o.key in amt then amt[o.key].total + amt[o.key].fee else 0
  }

  function FeesKept(orders: seq<Order>, amt: Amount): int {
    if orders == [] then 0
    else
      var o := orders[|orders| - 1];
      FeesKept(orders[..|orders| - 1], amt) + if o.key in amt && !o.state.Declined? then amt[o.key].fee else 0
  }

  lemma TotalSnoc(s: seq<Move>, m: Move)
    ensures Total(s + [m]) == Total(s) + m.available + m.held
  {
    assert (s + [m])[..|s|] == s;
  }

  lemma CheckoutTotal(o: Order, a: Amounts)
    ensures Total(Checkout(o, a)) == a.total
  {
    var s := Checkout(o, a);
    TotalSnoc([], s[0]);
    TotalSnoc([] + [s[0]], s[1]);
    TotalSnoc([] + [s[0]] + [s[1]], s[2]);
    TotalSnoc([] + [s[0]] + [s[1]] + [s[2]], s[3]);
    assert [] + [s[0]] + [s[1]] + [s[2]] + [s[3]] == s;
  }

  lemma SettlementTotal(o: Order, a: Amounts)
    ensures Total(Settlement(o, a)) == if o.state.Declined? then a.fee else 0
  {
    var t := Settlement(o, a);
    if t != [] {
      TotalSnoc([], t[0]);
      assert [] + [t[0]] == t[..1];
      if |t| >= 2 {
        TotalSnoc([] + [t[0]], t[1]);
        assert [] + [t[0]] + [t[1]] == t[..2];
        if |t| == 3 {
          TotalSnoc([] + [t[0]] + [t[1]], t[2]);
        }
      }
      assert t[..|t|] == t;
    }
  }

  lemma LegsTotal(o: Order, a: Amounts)
    ensures Total(Legs(o, a)) == a.total + if o.state.Declined? then a.fee else 0
  {
    CheckoutTotal(o, a);
    SettlementTotal(o, a);
    BalanceConcat(Checkout(o, a), Settlement(o, a), "");
  }

  /** At the end each account's held balance is exactly what is still in escrow for its sales, and
      all balances together are what was paid in less the fees that were kept. */
  lemma MoneyIsConserved(keys: seq<Account>, orders: seq<Order>, amt: Amount, openedAt: Time, x: Account)
    requires AllNonNegative(amt)
    ensures var s := Sort(Planned(keys, orders, amt, openedAt));
      && Held(s, x) == EscrowOf(orders, amt, x)
      && Total(s) == |keys| * OPENING_BALANCE + PaidIn(orders, amt) - FeesKept(orders, amt)
  {
    SortTotals(Planned(keys, orders, amt, openedAt), x);
    OpeningsBalances(keys, openedAt);
    BalanceConcat(Openings(keys, openedAt), AllLegs(orders, amt), x);
    AllLegsBalances(orders, amt, x);
  }

  lemma {:induction false} AllLegsBalances(orders: seq<Order>, amt: Amount, x: Account)
    requires AllNonNegative(amt)
    ensures Held(AllLegs(orders, amt), x) == EscrowOf(orders, amt, x)
    ensures Total(AllLegs(orders, amt)) == PaidIn(orders, amt) - FeesKept(orders, amt)
  {
    if orders != [] {
      var front, o := orders[..|orders| - 1], orders[|orders| - 1];
      AllLegsBalances(front, amt, x);
      LegsBalances(o, Of(amt, o));
      LegsTotal(o, Of(amt, o));
      BalanceConcat(AllLegs(front, amt), Legs(o, Of(amt, o)), x);
    }
  }
}
