/** What one order does to the wallets (timelineFor in sales.go, the legs in finance.go), and the
    ledger of many orders before any withdrawal. */
module LedgerOrders {
  import opened Wrappers
  import opened LedgerSort
  import opened LedgerBalances

  const MINUTE := 60_000_000_000
  const HOUR := 60 * MINUTE
  const DAY := 24 * HOUR
  const ESCROW_WINDOW := 72 * HOUR

  datatype State =
    | AwaitingConfirmation | Preparing | InTransit | Delivered | Completed
    | Declined | RefundRequested | RefundDisputed | RefundAccepted

  datatype Order = Order(key: string, buyer: Account, seller: Account, state: State, createdAt: Time)

  /** Goods, which the escrow holds, and delivery, which the seller never receives. */
  datatype Amounts = Amounts(total: int, fee: int) {
    predicate NonNegative() {
      total >= 0 && fee >= 0
    }
  }

  datatype Timeline = Timeline(
    confirmedAt: Option<Time>, receivedAt: Option<Time>, payoutAt: Option<Time>,
    completedAt: Option<Time>, cancelledAt: Option<Time>, transport: string)

  function TimelineFor(o: Order): Timeline {
    var at := (d: int) => Some(o.createdAt + d);
    match o.state
    case AwaitingConfirmation => Timeline(None, None, None, None, None, "pending")
    case Preparing => Timeline(at(2 * HOUR), None, None, None, None, "pending")
    case InTransit => Timeline(at(3 * HOUR), None, None, None, None, "in-transit")
    case Delivered => Timeline(at(4 * HOUR), None, None, None, None, "delivered")
    case Declined => Timeline(None, None, None, None, at(8 * HOUR), "pending")
    case RefundRequested => Timeline(at(3 * HOUR), at(4 * DAY), None, None, None, "delivered")
    case RefundDisputed => Timeline(at(3 * HOUR), at(4 * DAY), None, None, None, "delivered")
    case RefundAccepted => Timeline(at(3 * HOUR), at(3 * DAY), None, None, at(21 * DAY), "delivered")
    case Completed =>
      var payout := at(3 * DAY + ESCROW_WINDOW);
      Timeline(at(3 * HOUR), at(3 * DAY), payout, payout, None, "delivered")
  }

  /** What each state says about the order: nothing happens before what leads to it, only a completed
      order is paid out, 72 hours after its receipt, and only a cancelled one is given back. */
  lemma TimelineSays(o: Order)
    ensures var t, s := TimelineFor(o), o.state;
      && (t.confirmedAt.None? <==> s.AwaitingConfirmation? || s.Declined?)
      && (t.receivedAt.Some? <==> s.Completed? || s.RefundRequested? || s.RefundDisputed? || s.RefundAccepted?)
      && (t.payoutAt.Some? <==> s.Completed?) && t.completedAt == t.payoutAt
      && (t.cancelledAt.Some? <==> s.Declined? || s.RefundAccepted?)
      && (t.confirmedAt.Some? ==> o.createdAt + MINUTE < t.confirmedAt.value)
      && (t.receivedAt.Some? ==> t.confirmedAt.Some? && t.confirmedAt.value < t.receivedAt.value)
      && (t.payoutAt.Some? ==> t.receivedAt.Some? && t.payoutAt.value == t.receivedAt.value + 72 * HOUR)
      && (t.cancelledAt.Some? ==> o.createdAt + MINUTE < t.cancelledAt.value)
      && (t.cancelledAt.Some? && t.receivedAt.Some? ==> t.receivedAt.value < t.cancelledAt.value)
  {
  }

  /** The order's money is still in escrow. */
  predicate InEscrow(o: Order) {
    !o.state.Completed? && !o.state.Declined? && !o.state.RefundAccepted?
  }

  function Settlement(o: Order, a: Amounts): seq<Move> {
    match o.state
    case Completed => [Move(o.seller, EscrowRelease, a.total, -a.total, TimelineFor(o).payoutAt.value)]
    case Declined =>
      var at := TimelineFor(o).cancelledAt.value;
      [Move(o.seller, Refund, 0, -a.total, at),
       Move(o.buyer, Refund, a.total, 0, at),
       Move(o.buyer, Refund, a.fee, 0, at)]
    case RefundAccepted =>
      var at := TimelineFor(o).cancelledAt.value;
      [Move(o.seller, Refund, 0, -a.total, at), Move(o.buyer, Refund, a.total, 0, at)]
    case _ => []
  }

  /** The payment arrives as a balance and is debited into escrow. */
  function Checkout(o: Order, a: Amounts): seq<Move> {
    [Move(o.buyer, Topup, a.total + a.fee, 0, o.createdAt),
     Move(o.buyer, EscrowHold, -a.total, 0, o.createdAt + MINUTE),
     Move(o.seller, EscrowHold, 0, a.total, o.createdAt + MINUTE),
     Move(o.buyer, Fee, -a.fee, 0, o.createdAt + MINUTE)]
  }

  function Legs(o: Order, a: Amounts): seq<Move> {
    Checkout(o, a) + Settlement(o, a)
  }

  lemma NonNegativeSnoc(s: seq<Move>, m: Move)
    requires NonNegative(s)
    requires Available(s, m.account) + m.available >= 0 && Held(s, m.account) + m.held >= 0
    ensures NonNegative(s + [m])
    ensures forall a :: Available(s + [m], a) == Available(s, a) + AvailableBy(m, a)
    ensures forall a :: Held(s + [m], a) == Held(s, a) + HeldBy(m, a)
  {
    assert (s + [m])[..|s|] == s;
    assert s[..|s|] == s;
    forall n, a | 0 <= n <= |s + [m]|
      ensures Available((s + [m])[..n], a) >= 0 && Held((s + [m])[..n], a) >= 0
    {
      if n <= |s| {
        assert (s + [m])[..n] == s[..n];
      } else {
        assert (s + [m])[..n] == s + [m];
      }
    }
  }

  /** Checkout overdraws nobody and leaves exactly the goods total, held for the seller. */
  lemma CheckoutBalances(o: Order, a: Amounts)
    requires a.NonNegative()
    ensures NonNegative(Checkout(o, a))
    ensures forall x :: Available(Checkout(o, a), x) == 0
    ensures forall x :: Held(Checkout(o, a), x) == if x == o.seller then a.total else 0
  {
    var s := Checkout(o, a);
    NonNegativeSnoc([], s[0]);
    NonNegativeSnoc([] + [s[0]], s[1]);
    NonNegativeSnoc([] + [s[0]] + [s[1]], s[2]);
    NonNegativeSnoc([] + [s[0]] + [s[1]] + [s[2]], s[3]);
    assert [] + [s[0]] + [s[1]] + [s[2]] + [s[3]] == s;
  }

  /** What account x has from an order once it is settled as far as its state says. */
  function AvailableAfter(o: Order, a: Amounts, x: Account): int {
    match o.state
    case Completed => if x == o.seller then a.total else 0
    case Declined => if x == o.buyer then a.total + a.fee else 0
    case RefundAccepted => if x == o.buyer then a.total else 0
    case _ => 0
  }

  lemma LegsSorted(o: Order, a: Amounts)
    ensures Sorted(Legs(o, a))
  {
  }

  /** When each kind of movement happens: the top-up with the order, the debits a minute later, the
      release with the payout, the refund with the cancellation. */
  lemma LegsAreTimely(o: Order, a: Amounts, m: Move)
    requires m in Legs(o, a)
    ensures m.kind.Topup? || m.kind.EscrowHold? || m.kind.Fee? || m.kind.EscrowRelease? || m.kind.Refund?
    ensures m.kind.Topup? ==> m.at == o.createdAt
    ensures m.kind.EscrowHold? || m.kind.Fee? ==> m.at == o.createdAt + MINUTE
    ensures m.kind.EscrowRelease? ==> o.state.Completed? && Some(m.at) == TimelineFor(o).payoutAt
    ensures m.kind.Refund? ==> Some(m.at) == TimelineFor(o).cancelledAt
    ensures m.kind.EscrowRelease? || m.held != 0 ==> m.account == o.seller
    ensures m.available != 0 && !m.kind.EscrowRelease? ==> m.account == o.buyer
  {
    var i :| 0 <= i < |Legs(o, a)| && Legs(o, a)[i] == m;
  }

  /** s is what an order's movements so far leave: nothing overdrawn, `available` for one account
      and `held` for another. */
  ghost predicate Leaves(s: seq<Move>, x: Account, available: int, y: Account, held: int) {
    && NonNegative(s)
    && (forall a :: Available(s, a) == if a == x then available else 0)
    && (forall a :: Held(s, a) == if a == y then held else 0)
  }

  lemma RefundBalances(c: seq<Move>, buyer: Account, seller: Account, total: int, at: Time)
    requires total >= 0 && Leaves(c, buyer, 0, seller, total)
    ensures Leaves(c + [Move(seller, Refund, 0, -total, at)] + [Move(buyer, Refund, total, 0, at)],
                   buyer, total, seller, 0)
  {
    var m := Move(seller, Refund, 0, -total, at);
    NonNegativeSnoc(c, m);
    NonNegativeSnoc(c + [m], Move(buyer, Refund, total, 0, at));
  }

  /** Settling takes from escrow what checkout put there, and gives it to who is due. */
  lemma SettlementBalances(c: seq<Move>, o: Order, a: Amounts)
    requires a.NonNegative() && Leaves(c, o.buyer, 0, o.seller, a.total)
    ensures var s := c + Settlement(o, a);
      match o.state
      case Completed => Leaves(s, o.seller, a.total, o.seller, 0)
      case Declined => Leaves(s, o.buyer, a.total + a.fee, o.seller, 0)
      case RefundAccepted => Leaves(s, o.buyer, a.total, o.seller, 0)
      case _ => Leaves(s, o.buyer, 0, o.seller, a.total)
  {
    var t := Settlement(o, a);
    match o.state
    case Completed => NonNegativeSnoc(c, t[0]);
    case Declined =>
      RefundBalances(c, o.buyer, o.seller, a.total, t[0].at);
      NonNegativeSnoc(c + [t[0]] + [t[1]], t[2]);
      assert c + t == c + [t[0]] + [t[1]] + [t[2]];
    case RefundAccepted =>
      RefundBalances(c, o.buyer, o.seller, a.total, t[0].at);
      assert c + t == c + [t[0]] + [t[1]];
    case _ => assert c + t == c;
  }

  /** One order's own movements are in time order and overdraw nobody. */
  lemma LegsBalances(o: Order, a: Amounts)
    requires a.NonNegative()
    ensures Sorted(Legs(o, a)) && NonNegative(Legs(o, a))
    ensures forall x :: Available(Legs(o, a), x) == AvailableAfter(o, a, x)
    ensures forall x :: Held(Legs(o, a), x) == if x == o.seller && InEscrow(o) then a.total else 0
  {
    CheckoutBalances(o, a);
    SettlementBalances(Checkout(o, a), o, a);
    LegsSorted(o, a);
  }
}
