/** computeAmounts: the two numbers every order is settled on, worked out once. */
module LedgerAmounts {
  import opened LedgerSort
  import opened LedgerOrders
  import opened LedgerPlan

  /** What the planner knows of one order beyond its movements. */
  datatype Sale = Sale(order: Order, listing: nat, variant: nat, quantity: int, offerKey: string)

  datatype Offer = Offer(key: string, total: int)

  datatype Problem = NoSuchBuyer(key: string) | NoSuchSeller(key: string) | NoSuchOffer(key: string)

  datatype Result<T> = Ok(value: T) | Err(problem: Problem)

  /** Prices by listing and variant, negotiated offers, and the province of every account. */
  datatype Catalogue = Catalogue(prices: seq<seq<int>>, offers: seq<Offer>, provinces: map<Account, string>) {
    predicate Has(s: Sale) {
      s.listing < |prices| && s.variant < |prices[s.listing]|
    }

    ghost predicate NonNegative() {
      && (forall l, v :: 0 <= l < |prices| && 0 <= v < |prices[l]| ==> prices[l][v] >= 0)
      && (forall o :: o in offers ==> o.total >= 0)
    }
  }

  function DeliveryFee(sameProvince: bool): int {
    if sameProvince then 22000 else 35000
  }

  /** The first offer with the key. */
  function FindOffer(offers: seq<Offer>, key: string): seq<Offer> {
    if offers == [] then []
    else if offers[0].key == key then [offers[0]]
    else FindOffer(offers[1..], key)
  }

  function AmountsFor(c: Catalogue, s: Sale): Result<Amounts>
    requires c.Has(s)
  {
    if s.order.buyer !in c.provinces then Err(NoSuchBuyer(s.order.key))
    else if s.order.seller !in c.provinces then Err(NoSuchSeller(s.order.key))
    else
      var fee := DeliveryFee(c.provinces[s.order.buyer] == c.provinces[s.order.seller]);
      if s.offerKey == "" then Ok(Amounts(c.prices[s.listing][s.variant] * s.quantity, fee))
      else
        var found := FindOffer(c.offers, s.offerKey);
        if found == [] then Err(NoSuchOffer(s.order.key)) else Ok(Amounts(found[0].total, fee))
  }

  /** The first of the offers with this key settles on this total. */
  ghost predicate FirstOffer(offers: seq<Offer>, key: string, total: int) {
    exists i :: 0 <= i < |offers| && offers[i].key == key && offers[i].total == total
                && forall j :: 0 <= j < i ==> offers[j].key != key
  }

  lemma {:induction false} FoundOffer(offers: seq<Offer>, key: string)
    ensures var f := FindOffer(offers, key);
      && (f == [] <==> forall o :: o in offers ==> o.key != key)
      && (f != [] ==> f[0] in offers && FirstOffer(offers, key, f[0].total))
  {
    if offers != [] {
      var rest := offers[1..];
      FoundOffer(rest, key);
      assert forall o :: o in offers <==> o == offers[0] || o in rest;
      if offers[0].key != key && FindOffer(rest, key) != [] {
        var i :| 0 <= i < |rest| && rest[i].key == key && rest[i].total == FindOffer(rest, key)[0].total
                 && forall j :: 0 <= j < i ==> rest[j].key != key;
        assert offers[i + 1] == rest[i];
        assert forall j :: 0 <= j < i + 1 ==> offers[j] == if j == 0 then offers[0] else rest[j - 1];
      }
    }
  }

  lemma AmountsNonNegative(c: Catalogue, s: Sale)
    requires c.Has(s) && c.NonNegative() && s.quantity >= 0
    ensures AmountsFor(c, s).Ok? ==> AmountsFor(c, s).value.NonNegative()
  {
    FoundOffer(c.offers, s.offerKey);
    assert c.prices[s.listing][s.variant] * s.quantity >= 0;
  }

  /** out has every key, with the value that belongs to its last occurrence. */
  ghost predicate LastWins(keys: seq<string>, values: seq<Amounts>, out: Amount)
    requires |keys| == |values|
  {
    && (forall i :: 0 <= i < |keys| ==> keys[i] in out)
    && forall i :: 0 <= i < |keys| && (forall j :: i < j < |keys| ==> keys[j] != keys[i]) ==> out[keys[i]] == values[i]
  }

  lemma LastWinsSnoc(keys: seq<string>, values: seq<Amounts>, out: Amount, key: string, value: Amounts)
    requires |keys| == |values| && LastWins(keys, values, out)
    ensures LastWins(keys + [key], values + [value], out[key := value])
  {
    var longer, more := keys + [key], values + [value];
    forall i | 0 <= i < |longer| && (forall j :: i < j < |longer| ==> longer[j] != longer[i])
      ensures out[key := value][longer[i]] == more[i]
    {
      if i < |keys| {
        assert longer[|keys|] != longer[i];
        assert forall j :: i < j < |keys| ==> longer[j] != longer[i] && longer[j] == keys[j];
      }
    }
  }

  function Keys(sales: seq<Sale>): (ks: seq<string>)
    ensures |ks| == |sales| && forall i :: 0 <= i < |sales| ==> ks[i] == sales[i].order.key
  {
    seq(|sales|, i requires 0 <= i < |sales| => sales[i].order.key)
  }

  /** Every order has amounts; a key stands for those of the last order with it. */
  ghost predicate AmountsOf(c: Catalogue, sales: seq<Sale>, out: Amount)
    requires forall s :: s in sales ==> c.Has(s)
  {
    exists values :: Priced(c, sales, values) && LastWins(Keys(sales), values, out)
  }

  ghost predicate Priced(c: Catalogue, sales: seq<Sale>, values: seq<Amounts>)
    requires forall s :: s in sales ==> c.Has(s)
  {
    |values| == |sales| && forall i :: 0 <= i < |sales| ==> AmountsFor(c, sales[i]) == Ok(values[i])
  }

  lemma PricedSnoc(c: Catalogue, sales: seq<Sale>, n: nat, values: seq<Amounts>, out: Amount)
    requires (forall s :: s in sales ==> c.Has(s)) && n < |sales|
    requires Priced(c, sales[..n], values) && LastWins(Keys(sales[..n]), values, out)
    requires AmountsFor(c, sales[n]).Ok?
    ensures var value := AmountsFor(c, sales[n]).value;
      && Priced(c, sales[..n + 1], values + [value])
      && LastWins(Keys(sales[..n + 1]), values + [value], out[sales[n].order.key := value])
  {
    LastWinsSnoc(Keys(sales[..n]), values, out, sales[n].order.key, AmountsFor(c, sales[n]).value);
    assert Keys(sales[..n + 1]) == Keys(sales[..n]) + [sales[n].order.key];
    forall i | 0 <= i < n ensures sales[..n + 1][i] == sales[..n][i] {
    }
  }

  lemma PricedOk(c: Catalogue, sales: seq<Sale>, n: nat, values: seq<Amounts>)
    requires (forall s :: s in sales ==> c.Has(s)) && n <= |sales| && Priced(c, sales[..n], values)
    ensures forall j :: 0 <= j < n ==> AmountsFor(c, sales[j]).Ok?
  {
    forall j | 0 <= j < n ensures AmountsFor(c, sales[j]).Ok? {
      assert sales[..n][j] == sales[j];
    }
  }

  lemma FairSnoc(c: Catalogue, sales: seq<Sale>, n: nat, out: Amount)
    requires (forall s :: s in sales ==> c.Has(s)) && n < |sales| && AmountsFor(c, sales[n]).Ok?
    ensures Fair(c, sales) && AllNonNegative(out) ==>
              AllNonNegative(out[sales[n].order.key := AmountsFor(c, sales[n]).value])
  {
    if Fair(c, sales) {
      AmountsNonNegative(c, sales[n]);
    }
  }

  /** No price, offer or quantity is negative. */
  ghost predicate Fair(c: Catalogue, sales: seq<Sale>) {
    c.NonNegative() && forall s :: s in sales ==> s.quantity >= 0
  }

  // ----------------------------------------------------------------------- what an order is charged

  /** The goods at the catalogue price for each unit, or at the price the offer settled on, and the
      courier's fee by distance. */
  ghost predicate Charged(c: Catalogue, s: Sale, a: Amounts)
    requires c.Has(s)
  {
    && s.order.buyer in c.provinces && s.order.seller in c.provinces
    && a.fee == (if c.provinces[s.order.buyer] == c.provinces[s.order.seller] then 22_000 else 35_000)
    && (s.offerKey == "" ==> a.total == s.quantity * c.prices[s.listing][s.variant])
    && (s.offerKey != "" ==> FirstOffer(c.offers, s.offerKey, a.total))
  }

  /** The problem names the order, and what it names really is missing. */
  ghost predicate Missing(c: Catalogue, s: Sale, problem: Problem) {
    match problem
    case NoSuchBuyer(key) => key == s.order.key && s.order.buyer !in c.provinces
    case NoSuchSeller(key) => key == s.order.key && s.order.seller !in c.provinces
    case NoSuchOffer(key) => key == s.order.key && s.offerKey != "" && forall o :: o in c.offers ==> o.key != s.offerKey
  }

  lemma ChargedOrMissing(c: Catalogue, s: Sale)
    requires c.Has(s)
    ensures match AmountsFor(c, s)
            case Ok(a) => Charged(c, s, a)
            case Err(problem) => Missing(c, s, problem)
  {
    FoundOffer(c.offers, s.offerKey);
    var price := c.prices[s.listing][s.variant];
    assert price * s.quantity == s.quantity * price;
  }

  /** The goods total if the quantity were q. */
  function TotalOf(c: Catalogue, s: Sale, q: int): int
    requires c.Has(s) && s.offerKey == "" && AmountsFor(c, s).Ok?
  {
    AmountsFor(c, s.(quantity := q)).value.total
  }

  /** Without an offer one unit costs the catalogue price, and the goods of m + n units cost those of
      m and those of n together. */
  lemma QuantitiesAdd(c: Catalogue, s: Sale, m: int, n: int)
    requires c.Has(s) && s.offerKey == "" && AmountsFor(c, s).Ok?
    ensures TotalOf(c, s, 1) == c.prices[s.listing][s.variant]
    ensures TotalOf(c, s, m + n) == TotalOf(c, s, m) + TotalOf(c, s, n)
  {
    var price := c.prices[s.listing][s.variant];
    assert price * (m + n) == price * m + price * n;
  }

  /** With an offer neither the price nor the quantity counts. */
  lemma OfferSettlesThePrice(c: Catalogue, s: Sale, prices: seq<seq<int>>, quantity: int)
    requires c.Has(s) && c.(prices := prices).Has(s.(quantity := quantity)) && s.offerKey != ""
    ensures AmountsFor(c.(prices := prices), s.(quantity := quantity)) == AmountsFor(c, s)
  {
  }

  /** The fee is the same for all orders within a province, the same for all others, and lower within
      one. */
  lemma FeeByProvince(c: Catalogue, s: Sale, t: Sale)
    requires c.Has(s) && c.Has(t) && AmountsFor(c, s).Ok? && AmountsFor(c, t).Ok?
    ensures s.order.buyer in c.provinces && s.order.seller in c.provinces
    ensures t.order.buyer in c.provinces && t.order.seller in c.provinces
    ensures var near, far := c.provinces[s.order.buyer] == c.provinces[s.order.seller],
                             c.provinces[t.order.buyer] != c.provinces[t.order.seller];
      var fee, other := AmountsFor(c, s).value.fee, AmountsFor(c, t).value.fee;
      && (near && far ==> fee < other)
      && (near == !far ==> fee == other)
  {
  }

  lemma AllCharged(c: Catalogue, sales: seq<Sale>, out: Amount, i: nat)
    requires (forall s :: s in sales ==> c.Has(s)) && AmountsOf(c, sales, out)
    requires i < |sales| && forall j :: i < j < |sales| ==> sales[j].order.key != sales[i].order.key
    ensures sales[i].order.key in out && Charged(c, sales[i], out[sales[i].order.key])
  {
    var values :| Priced(c, sales, values) && LastWins(Keys(sales), values, out);
    assert Keys(sales)[i] == sales[i].order.key;
    ChargedOrMissing(c, sales[i]);
  }

  /** Stops at the first order that names nobody or nothing; otherwise every order has amounts, those
      of the last order with its key, and none is negative if no price, offer or quantity is. */
  method ComputeAmounts(c: Catalogue, sales: seq<Sale>) returns (r: Result<Amount>)
    requires forall s :: s in sales ==> c.Has(s)
    ensures r.Err? ==> exists i :: (
      && 0 <= i < |sales| && AmountsFor(c, sales[i]) == Err(r.problem)
      && forall j :: 0 <= j < i ==> AmountsFor(c, sales[j]).Ok?)
    ensures r.Err? ==> exists s :: s in sales && Missing(c, s, r.problem)
    ensures r.Ok? ==> AmountsOf(c, sales, r.value)
    ensures r.Ok? ==> forall i ::
              0 <= i < |sales| && (forall j :: i < j < |sales| ==> sales[j].order.key != sales[i].order.key) ==>
                sales[i].order.key in r.value && Charged(c, sales[i], r.value[sales[i].order.key])
    ensures r.Ok? && Fair(c, sales) ==> AllNonNegative(r.value)
  {
    var out: Amount := map[];
    ghost var values: seq<Amounts> := [];
    for n := 0 to |sales|
      invariant Priced(c, sales[..n], values) && LastWins(Keys(sales[..n]), values, out)
      invariant Fair(c, sales) ==> AllNonNegative(out)
    {
      var a := AmountsFor(c, sales[n]);
      if a.Err? {
        PricedOk(c, sales, n, values);
        ChargedOrMissing(c, sales[n]);
        return Err(a.problem);
      }
      FairSnoc(c, sales, n, out);
      PricedSnoc(c, sales, n, values, out);
      values := values + [a.value];
      out := out[sales[n].order.key := a.value];
    }
    assert sales[..|sales|] == sales;
    forall i | 0 <= i < |sales| && forall j :: i < j < |sales| ==> sales[j].order.key != sales[i].order.key
      ensures sales[i].order.key in out && Charged(c, sales[i], out[sales[i].order.key])
    {
      AllCharged(c, sales, out, i);
    }
    return Ok(out);
  }
}
