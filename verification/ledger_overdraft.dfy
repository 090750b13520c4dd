/** A plan for which the seeder's own call overdraws the shop and aborts. */
module LedgerOverdraft {
  import opened Wrappers
  import opened LedgerSort
  import opened LedgerBalances
  import opened LedgerOrders
  import opened LedgerPlan
  import opened LedgerWithdrawals
  import opened LedgerWriter

  /** The shop's one sale: twenty million, paid out between the two cash-outs. */
  function BigSale(now: Time, buyer: Account): Order {
    Order("big", buyer, SHOP, Completed, now - 22 * DAY)
  }

  function BigAmounts(fee: nat): Amount {
    map["big" := Amounts(20_000_000, fee)]
  }

  function Movements(now: Time, buyer: Account, fee: nat): seq<Move> {
    Openings(DEMO_ACCOUNTS, now - CATALOGUE_AGE) + Legs(BigSale(now, buyer), Amounts(20_000_000, fee))
  }

  lemma {:induction false} OpeningAt(keys: seq<Account>, at: Time, i: nat)
    requires i < |keys|
    ensures |Openings(keys, at)| == |keys| && Openings(keys, at)[i] == Move(keys[i], Topup, OPENING_BALANCE, 0, at)
  {
    var n := |keys| - 1;
    if i < n {
      OpeningAt(keys[..n], at, i);
    } else if n > 0 {
      OpeningAt(keys[..n], at, n - 1);
    }
  }

  lemma {:induction false} OpeningsAvailable(keys: seq<Account>, at: Time, x: Account)
    requires forall i, j :: 0 <= i < j < |keys| ==> keys[i] != keys[j]
    ensures Available(Openings(keys, at), x) == if x in keys then OPENING_BALANCE else 0
  {
    if keys != [] {
      var n := |keys| - 1;
      OpeningsAvailable(keys[..n], at, x);
      assert keys == keys[..n] + [keys[n]];
    }
  }

  lemma MovementsAre(now: Time, buyer: Account, fee: nat)
    ensures |Movements(now, buyer, fee)| == 10
    ensures forall i :: 0 <= i < 5 ==> Movements(now, buyer, fee)[i].at == now - CATALOGUE_AGE
    ensures Movements(now, buyer, fee)[5..] == Legs(BigSale(now, buyer), Amounts(20_000_000, fee))
  {
    var at := now - CATALOGUE_AGE;
    OpeningAt(DEMO_ACCOUNTS, at, 0);
    forall i | 0 <= i < 5 ensures |Openings(DEMO_ACCOUNTS, at)| == 5 && Openings(DEMO_ACCOUNTS, at)[i].at == at {
      OpeningAt(DEMO_ACCOUNTS, at, i);
    }
  }

  lemma MovementsSorted(now: Time, buyer: Account, fee: nat)
    ensures Sorted(Movements(now, buyer, fee))
  {
    var s, legs := Movements(now, buyer, fee), Legs(BigSale(now, buyer), Amounts(20_000_000, fee));
    MovementsAre(now, buyer, fee);
    LegsSorted(BigSale(now, buyer), Amounts(20_000_000, fee));
    forall i, j | 0 <= i < j < 10 ensures s[i].at <= s[j].at {
      assert j >= 5 ==> s[j] == s[5..][j - 5] && s[j].at >= legs[0].at;
      assert i >= 5 ==> s[i] == s[5..][i - 5];
    }
  }

  /** What is planned is in time order already, so sorting leaves it. */
  lemma PlannedAre(now: Time, buyer: Account, fee: nat)
    ensures Sort(Planned(DEMO_ACCOUNTS, [BigSale(now, buyer)], BigAmounts(fee), now - CATALOGUE_AGE)) ==
            Movements(now, buyer, fee)
  {
    var o := BigSale(now, buyer);
    assert [o][..0] == [];
    assert AllLegs([o], BigAmounts(fee)) == [] + Legs(o, Amounts(20_000_000, fee)) == Legs(o, Amounts(20_000_000, fee));
    assert Planned(DEMO_ACCOUNTS, [o], BigAmounts(fee), now - CATALOGUE_AGE) == Movements(now, buyer, fee);
    MovementsSorted(now, buyer, fee);
    SortOfSorted(Movements(now, buyer, fee));
  }

  /** Before the payout the shop has its opening balance, after it twenty million more. */
  lemma ShopHas(now: Time, buyer: Account, fee: nat)
    requires buyer != SHOP
    ensures var s := Movements(now, buyer, fee);
      |s| == 10 && Available(s[..9], SHOP) == 3_000_000 && Available(s, SHOP) == 23_000_000
  {
    var o, a, at := BigSale(now, buyer), Amounts(20_000_000, fee), now - CATALOGUE_AGE;
    var s := Movements(now, buyer, fee);
    MovementsAre(now, buyer, fee);
    OpeningsAvailable(DEMO_ACCOUNTS, at, SHOP);
    CheckoutBalances(o, a);
    BalanceConcat(Openings(DEMO_ACCOUNTS, at), Checkout(o, a), SHOP);
    assert s[..9] == Openings(DEMO_ACCOUNTS, at) + Checkout(o, a);
    assert s[9] == Settlement(o, a)[0];
  }

  /** The first cash-out is sized at six and a half million, and three are there. */
  lemma FirstCashoutUncovered(now: Time, buyer: Account, fee: nat)
    requires buyer != SHOP
    ensures var s := Movements(now, buyer, fee);
      var w := Cashouts(now)[0];
      && |s| == 10 && UpTo(s, w.at) == 9 && Carried(s, SHOP, w.at) == 3_000_000
      && Sized(s, SHOP, w) == 6_500_000
  {
    var s, from := Movements(now, buyer, fee), now - 20 * DAY;
    MovementsAre(now, buyer, fee);
    MovementsSorted(now, buyer, fee);
    ShopHas(now, buyer, fee);
    var legs := Legs(BigSale(now, buyer), Amounts(20_000_000, fee));
    forall i | 5 <= i < 10 ensures s[i] == legs[i - 5] {
      assert s[i] == s[5..][i - 5];
    }
    assert s[9].at == now - 16 * DAY && s[9].account == SHOP;
    assert forall i :: 0 <= i < 9 ==> s[i].at < from;
    UpToBound(s, from);
    LowestIsLeast(s, SHOP, from);
    assert s[..9 + 1] == s;
    assert Lowest(s, SHOP, from) == Some(23_000_000);
    assert 23_000_000 * 30 / 100 == 6_900_000;
  }

  lemma SeedIsUncovered(now: Time, buyer: Account, fee: nat)
    requires buyer != SHOP
    ensures AllNonNegative(BigAmounts(fee))
    ensures !Covered(Sort(Planned(DEMO_ACCOUNTS, [BigSale(now, buyer)], BigAmounts(fee), now - CATALOGUE_AGE)),
                     SHOP, Cashouts(now), 0)
  {
    PlannedAre(now, buyer, fee);
    FirstCashoutUncovered(now, buyer, fee);
    assert Cashouts(now)[..0] == [];
  }

  /** The seeder's own call aborts on such a plan, though without withdrawals nothing is overdrawn. */
  method SeedCanOverdraw(now: Time, buyer: Account, fee: nat) returns (w: Written)
    requires buyer != SHOP
    ensures w.GoesNegative?
    ensures NonNegative(Sort(Planned(DEMO_ACCOUNTS, [BigSale(now, buyer)], BigAmounts(fee), now - CATALOGUE_AGE)))
  {
    SeedIsUncovered(now, buyer, fee);
    PlannedNeverNegative(DEMO_ACCOUNTS, [BigSale(now, buyer)], BigAmounts(fee), now - CATALOGUE_AGE);
    w := SeedLedger(now, [BigSale(now, buyer)], BigAmounts(fee));
  }
}
