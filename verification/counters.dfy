/** The numbers that cmd/seed stores beside its listings, computed from the orders behind them. */
module Counters {
  import opened Wrappers
  import opened LedgerOrders

  datatype Sale = Sale(listing: nat, variant: nat, quantity: int, state: State, rating: Option<int>)

  datatype Variant = Variant(sold: int, quantity: int)

  datatype Listing = Listing(cachedSold: int, reviewCount: int, rating: real, variants: seq<Variant>)

  datatype Tally = Tally(sum: int, count: int)

  /** Declined and refunded orders moved nothing. */
  predicate CountsAsSale(o: Sale) {
    !o.state.Declined? && !o.state.RefundAccepted?
  }

  // ---------------------------------------------------------------- what the numbers should be

  function Units(orders: seq<Sale>, listing: nat): int {
    if orders == [] then 0
    else
      var o := orders[|orders| - 1];
      Units(orders[..|orders| - 1], listing) + if CountsAsSale(o) && o.listing == listing then o.quantity else 0
  }

  function UnitsOf(orders: seq<Sale>, listing: nat, variant: nat): int {
    if orders == [] then 0
    else
      var o := orders[|orders| - 1];
      UnitsOf(orders[..|orders| - 1], listing, variant) +
      if CountsAsSale(o) && o.listing == listing && o.variant == variant then o.quantity else 0
  }

  function Reviews(orders: seq<Sale>, listing: nat): Tally {
    if orders == [] then Tally(0, 0)
    else
      var o := orders[|orders| - 1];
      var t := Reviews(orders[..|orders| - 1], listing);
      if CountsAsSale(o) && o.listing == listing && o.rating.Some? then Tally(t.sum + o.rating.value, t.count + 1)
      else t
  }

  predicate Fits(o: Sale, listings: seq<Listing>) {
    o.listing < |listings| && o.variant < |listings[o.listing].variants|
  }

  ghost predicate AllFit(orders: seq<Sale>, listings: seq<Listing>) {
    forall k :: 0 <= k < |orders| ==> Fits(orders[k], listings)
  }

  /** The listing after the orders were counted in. */
  ghost predicate Sold(now: Listing, was: Listing, orders: seq<Sale>, i: nat) {
    && now.cachedSold == was.cachedSold + Units(orders, i)
    && now.reviewCount == was.reviewCount && now.rating == was.rating
    && |now.variants| == |was.variants|
    && forall j :: 0 <= j < |now.variants| ==>
         now.variants[j] == was.variants[j].(sold := was.variants[j].sold + UnitsOf(orders, i, j))
  }

  ghost predicate AllSold(now: seq<Listing>, was: seq<Listing>, orders: seq<Sale>) {
    |now| == |was| && forall i :: 0 <= i < |now| ==> Sold(now[i], was[i], orders, i)
  }

  ghost predicate Tallied(tallies: map<nat, Tally>, orders: seq<Sale>) {
    && (forall i :: i in tallies <==> Reviews(orders, i).count > 0)
    && forall i :: i in tallies ==> tallies[i] == Reviews(orders, i)
  }

  /** What rollUpCounters makes of a listing. */
  function Rolled(was: Listing, orders: seq<Sale>, i: nat): (l: Listing)
    ensures |l.variants| == |was.variants|
  {
    var t := Reviews(orders, i);
    Listing(was.cachedSold + Units(orders, i),
            if t.count > 0 then t.count else was.reviewCount,
            if t.count > 0 then t.sum as real / t.count as real else was.rating,
            seq(|was.variants|, j requires 0 <= j < |was.variants| =>
              Covered(was.variants[j].(sold := was.variants[j].sold + UnitsOf(orders, i, j)))))
  }

  function Rated(l: Listing, t: Tally): Listing
    requires t.count > 0
  {
    l.(reviewCount := t.count, rating := t.sum as real / t.count as real)
  }

  function Covered(v: Variant): Variant {
    v.(quantity := if v.quantity < v.sold + 1 then v.sold + 1 else v.quantity)
  }

  // ------------------------------------------------------------------------------------ the code

  function Bumped(l: Listing, o: Sale): Listing
    requires o.variant < |l.variants|
  {
    var v := l.variants[o.variant];
    l.(cachedSold := l.cachedSold + o.quantity,
       variants := l.variants[o.variant := v.(sold := v.sold + o.quantity)])
  }

  lemma SoldOneMore(now: seq<Listing>, was: seq<Listing>, orders: seq<Sale>, k: nat)
    requires k < |orders| && AllSold(now, was, orders[..k]) && Fits(orders[k], was)
    ensures Fits(orders[k], now)
    ensures var o := orders[k];
      AllSold(if CountsAsSale(o) then now[o.listing := Bumped(now[o.listing], o)] else now, was, orders[..k + 1])
  {
    assert orders[..k + 1][..k] == orders[..k];
    var o := orders[k];
    var next := if CountsAsSale(o) then now[o.listing := Bumped(now[o.listing], o)] else now;
    forall i | 0 <= i < |next| ensures Sold(next[i], was[i], orders[..k + 1], i) {
      assert Sold(now[i], was[i], orders[..k], i);
    }
  }

  lemma TalliedOneMore(tallies: map<nat, Tally>, orders: seq<Sale>, k: nat)
    requires k < |orders| && Tallied(tallies, orders[..k])
    ensures var o := orders[k];
      Tallied(if CountsAsSale(o) && o.rating.Some? then
                var t := if o.listing in tallies then tallies[o.listing] else Tally(0, 0);
                tallies[o.listing := Tally(t.sum + o.rating.value, t.count + 1)]
              else tallies, orders[..k + 1])
  {
    assert orders[..k + 1][..k] == orders[..k];
    CountIsNat(orders[..k]);
  }

  lemma {:induction false} CountIsNat(orders: seq<Sale>)
    ensures forall i :: Reviews(orders, i).count >= 0
    ensures forall i :: Reviews(orders, i).count == 0 ==> Reviews(orders, i).sum == 0
  {
    if orders != [] {
      CountIsNat(orders[..|orders| - 1]);
    }
  }

  lemma {:induction false} ReviewedFits(orders: seq<Sale>, listings: seq<Listing>, i: nat)
    requires AllFit(orders, listings) && i >= |listings|
    ensures Reviews(orders, i).count == 0
  {
    if orders != [] {
      assert Fits(orders[|orders| - 1], listings);
      ReviewedFits(orders[..|orders| - 1], listings, i);
    }
  }

  class Plan {
    var listings: seq<Listing>

    constructor (listings: seq<Listing>)
      ensures this.listings == listings
    {
      this.listings := listings;
    }

    method RollUpCounters(orders: seq<Sale>)
      requires AllFit(orders, listings)
      modifies this
      ensures |listings| == |old(listings)|
      ensures forall i :: 0 <= i < |listings| ==> listings[i] == Rolled(old(listings)[i], orders, i)
    {
      var tallies := CountOrders(orders);
      ghost var sold := listings;
      forall i: nat | i >= |listings| ensures i !in tallies {
        ReviewedFits(orders, old(listings), i);
      }
      Rate(tallies);
      ghost var rated := listings;
      CoverSales();
      forall i | 0 <= i < |listings| ensures listings[i] == Rolled(old(listings)[i], orders, i) {
        assert Sold(sold[i], old(listings)[i], orders, i);
        assert listings[i].variants == Rolled(old(listings)[i], orders, i).variants;
      }
    }

    method CountOrders(orders: seq<Sale>) returns (tallies: map<nat, Tally>)
      requires AllFit(orders, listings)
      modifies this
      ensures AllSold(listings, old(listings), orders) && Tallied(tallies, orders)
    {
      tallies := map[];
      for k := 0 to |orders|
        invariant AllSold(listings, old(listings), orders[..k]) && Tallied(tallies, orders[..k])
      {
        var o := orders[k];
        assert Fits(o, old(listings));
        SoldOneMore(listings, old(listings), orders, k);
        TalliedOneMore(tallies, orders, k);
        if !CountsAsSale(o) {
          continue;
        }
        listings := listings[o.listing := Bumped(listings[o.listing], o)];
        if o.rating.None? {
          continue;
        }
        var t := if o.listing in tallies then tallies[o.listing] else Tally(0, 0);
        tallies := tallies[o.listing := Tally(t.sum + o.rating.value, t.count + 1)];
      }
      assert orders[..|orders|] == orders;
    }

    method Rate(tallies: map<nat, Tally>)
      requires forall i :: i in tallies ==> i < |listings| && tallies[i].count > 0
      modifies this
      ensures |listings| == |old(listings)|
      ensures forall i :: 0 <= i < |listings| ==>
                listings[i] == if i in tallies
                               then Rated(old(listings)[i], tallies[i])
                               else old(listings)[i]
    {
      var rest := tallies.Keys;
      while rest != {}
        invariant rest <= tallies.Keys && |listings| == |old(listings)|
        invariant forall i :: 0 <= i < |listings| ==>
                    listings[i] == if i in tallies && i !in rest
                                   then Rated(old(listings)[i], tallies[i])
                                   else old(listings)[i]
      {
        var i :| i in rest;
        var t := tallies[i];
        listings := listings[i := Rated(listings[i], t)];
        rest := rest - {i};
      }
    }

    method CoverSales()
      modifies this
      ensures |listings| == |old(listings)|
      ensures forall i :: 0 <= i < |listings| ==>
                && |listings[i].variants| == |old(listings)[i].variants|
                && listings[i] == old(listings)[i].(variants := listings[i].variants)
                && forall j :: 0 <= j < |listings[i].variants| ==>
                     listings[i].variants[j] == Covered(old(listings)[i].variants[j])
    {
      for i := 0 to |listings|
        invariant |listings| == |old(listings)|
        invariant forall m :: i <= m < |listings| ==> listings[m] == old(listings)[m]
        invariant forall m :: 0 <= m < i ==>
                    && |listings[m].variants| == |old(listings)[m].variants|
                    && listings[m] == old(listings)[m].(variants := listings[m].variants)
                    && forall j :: 0 <= j < |listings[m].variants| ==>
                         listings[m].variants[j] == Covered(old(listings)[m].variants[j])
      {
        var l := listings[i];
        var vs := l.variants;
        for j := 0 to |l.variants|
          modifies {}
          invariant |vs| == |l.variants|
          invariant forall m :: 0 <= m < |vs| ==> vs[m] == if m < j then Covered(l.variants[m]) else l.variants[m]
        {
          vs := vs[j := Covered(vs[j])];
        }
        listings := listings[i := l.(variants := vs)];
      }
    }
  }

  // ---------------------------------------------------------------------------- the numbers agree

  function UnitsOfFirst(orders: seq<Sale>, listing: nat, n: nat): int {
    if n == 0 then 0 else UnitsOfFirst(orders, listing, n - 1) + UnitsOf(orders, listing, n - 1)
  }

  lemma {:induction false} FirstGrows(orders: seq<Sale>, listing: nat, n: nat)
    requires orders != []
    ensures var o := orders[|orders| - 1];
      UnitsOfFirst(orders, listing, n) ==
      UnitsOfFirst(orders[..|orders| - 1], listing, n) +
      if CountsAsSale(o) && o.listing == listing && o.variant < n then o.quantity else 0
  {
    if n != 0 {
      FirstGrows(orders, listing, n - 1);
    }
  }

  lemma {:induction false} NoOrders(listing: nat, n: nat)
    ensures UnitsOfFirst([], listing, n) == 0
  {
    if n != 0 {
      NoOrders(listing, n - 1);
    }
  }

  /** What the variants of a listing sold adds up to what the listing sold. */
  lemma {:induction false} VariantsAddUp(orders: seq<Sale>, listings: seq<Listing>, i: nat)
    requires AllFit(orders, listings) && i < |listings|
    ensures UnitsOfFirst(orders, i, |listings[i].variants|) == Units(orders, i)
  {
    if orders == [] {
      NoOrders(i, |listings[i].variants|);
    } else {
      var n := |orders| - 1;
      VariantsAddUp(orders[..n], listings, i);
      FirstGrows(orders, i, |listings[i].variants|);
      assert Fits(orders[n], listings);
    }
  }

  lemma {:induction false} SumOfRatings(orders: seq<Sale>, i: nat, low: int, high: int)
    requires forall o :: o in orders && o.rating.Some? ==> low <= o.rating.value <= high
    ensures var t := Reviews(orders, i);
      low * t.count <= t.sum <= high * t.count
  {
    if orders != [] {
      var n := |orders| - 1;
      assert orders[n] in orders;
      SumOfRatings(orders[..n], i, low, high);
      var t := Reviews(orders[..n], i);
      assert low * (t.count + 1) == low * t.count + low && high * (t.count + 1) == high * t.count + high;
    }
  }

  lemma Average(sum: int, count: int, low: int, high: int)
    requires count > 0 && low * count <= sum <= high * count
    ensures low as real <= sum as real / count as real <= high as real
  {
    var q := sum as real / count as real;
    assert q * count as real == sum as real;
    assert (low * count) as real == low as real * count as real;
    assert (high * count) as real == high as real * count as real;
    assert (q - low as real) * count as real >= 0.0;
    assert (high as real - q) * count as real >= 0.0;
  }

  /** A cached rating lies among the ratings it averages; stock covers what was sold, and is raised
      no further than that. */
  lemma RolledIsSound(was: Listing, orders: seq<Sale>, i: nat, low: int, high: int)
    requires forall o :: o in orders && o.rating.Some? ==> low <= o.rating.value <= high
    ensures var l := Rolled(was, orders, i);
      && (Reviews(orders, i).count > 0 ==> low as real <= l.rating <= high as real)
      && |l.variants| == |was.variants|
      && forall j :: 0 <= j < |was.variants| ==>
           var v := l.variants[j];
           v.sold < v.quantity && was.variants[j].quantity <= v.quantity
           && (v.quantity == was.variants[j].quantity || v.quantity == v.sold + 1)
  {
    var t := Reviews(orders, i);
    SumOfRatings(orders, i, low, high);
    if t.count > 0 {
      Average(t.sum, t.count, low, high);
    }
  }

  // ------------------------------------------------------------------------- one order at a time

  lemma {:induction false} NothingCounts(before: seq<Sale>, o: Sale, after: seq<Sale>, i: nat, j: nat)
    requires o.state.Declined? || o.state.RefundAccepted? || o.listing != i
    ensures Units(before + [o] + after, i) == Units(before + after, i)
    ensures UnitsOf(before + [o] + after, i, j) == UnitsOf(before + after, i, j)
    ensures Reviews(before + [o] + after, i) == Reviews(before + after, i)
  {
    if after == [] {
      assert before + [o] + after == before + [o] && (before + [o])[..|before|] == before;
      assert before + after == before;
    } else {
      var n := |after| - 1;
      NothingCounts(before, o, after[..n], i, j);
      assert before + [o] + after == (before + [o] + after[..n]) + [after[n]];
      assert before + after == (before + after[..n]) + [after[n]];
    }
  }

  /** A declined order, a refunded one, and one of another listing leave a listing as if they were
      not there. */
  lemma AsIfAbsent(was: Listing, before: seq<Sale>, o: Sale, after: seq<Sale>, i: nat)
    requires o.state.Declined? || o.state.RefundAccepted? || o.listing != i
    ensures Rolled(was, before + [o] + after, i) == Rolled(was, before + after, i)
  {
    NothingCounts(before, o, after, i, 0);
    forall j | 0 <= j < |was.variants|
      ensures UnitsOf(before + [o] + after, i, j) == UnitsOf(before + after, i, j)
    {
      NothingCounts(before, o, after, i, j);
    }
    assert Rolled(was, before + [o] + after, i).variants == Rolled(was, before + after, i).variants;
  }

  /** Some order of the listing that was neither declined nor refunded has a rating. */
  ghost predicate Reviewed(orders: seq<Sale>, i: nat) {
    exists k :: 0 <= k < |orders| && orders[k].listing == i && orders[k].rating.Some?
                && !orders[k].state.Declined? && !orders[k].state.RefundAccepted?
  }

  lemma {:induction false} ReviewedIff(orders: seq<Sale>, i: nat)
    ensures Reviews(orders, i).count >= 0
    ensures Reviews(orders, i).count > 0 <==> Reviewed(orders, i)
  {
    if orders != [] {
      var n := |orders| - 1;
      ReviewedIff(orders[..n], i);
      assert orders == orders[..n] + [orders[n]];
    }
  }

  lemma AverageTimesCount(sum: int, count: int)
    requires count > 0
    ensures sum as real / count as real * count as real == sum as real
  {
  }

  /** Any other order adds its units to the listing and to its variant, and its rating, if it has
      one, to the average; the first rating replaces what was cached. */
  lemma OneMoreSale(was: Listing, orders: seq<Sale>, o: Sale)
    requires !o.state.Declined? && !o.state.RefundAccepted?
    ensures var i := o.listing;
      var before, after := Rolled(was, orders, i), Rolled(was, orders + [o], i);
      && after.cachedSold == before.cachedSold + o.quantity
      && (forall j :: 0 <= j < |was.variants| ==>
            after.variants[j].sold == before.variants[j].sold + if j == o.variant then o.quantity else 0)
      && (o.rating.None? ==> after.reviewCount == before.reviewCount && after.rating == before.rating)
      && (o.rating.Some? && Reviewed(orders, i) ==>
            && after.reviewCount == before.reviewCount + 1
            && after.rating * after.reviewCount as real ==
               before.rating * before.reviewCount as real + o.rating.value as real)
      && (o.rating.Some? && !Reviewed(orders, i) ==>
            after.reviewCount == 1 && after.rating == o.rating.value as real)
  {
    var i := o.listing;
    assert (orders + [o])[..|orders|] == orders;
    ReviewedIff(orders, i);
    CountIsNat(orders);
    var s, t := Reviews(orders, i), Reviews(orders + [o], i);
    if s.count > 0 {
      AverageTimesCount(s.sum, s.count);
      AverageTimesCount(t.sum, t.count);
    }
  }

  /** And no orders at all leave everything but the stock as it was. */
  lemma NoSales(was: Listing, i: nat)
    ensures var l := Rolled(was, [], i);
      && l.cachedSold == was.cachedSold && l.reviewCount == was.reviewCount && l.rating == was.rating
      && forall j :: 0 <= j < |was.variants| ==> l.variants[j].sold == was.variants[j].sold
  {
  }
}
