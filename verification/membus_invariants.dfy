/** What every step of the in-memory bus keeps. */
module MembusInvariants {
  import opened Wrappers
  import opened MembusProtocol

  // -------------------------------------------------------------------------------- the channels

  /** What was sent to a subscription is what it handled, then the batch in hand, then the channel. */
  ghost predicate SubOk(s: Sub, closed: bool) {
    && s.sent == s.handled + s.consumer.Held() + s.ch
    && |s.ch| <= BUFFER && s.batchSize >= 1
    && (s.consumer.Filling? || s.consumer.Handling? ==> 1 <= |s.consumer.batch| <= s.batchSize)
    && s.closed == closed
    && (s.consumer.Exited? ==> closed && s.ch == [])
  }

  ghost predicate QueuesOk(b: Bus) {
    && (forall i :: i in b.subs ==> SubOk(b.subs[i], b.closed))
    && (b.closed ==> b.active == map[])
  }

  lemma SendOk(s: Sub, closed: bool, item: Item)
    requires SubOk(s, closed) && !closed && |s.ch| < BUFFER
    ensures SubOk(s.(ch := s.ch + [item], sent := s.sent + [item]), closed)
  {
    assert s.sent + [item] == s.handled + s.consumer.Held() + (s.ch + [item]);
  }

  lemma TakeOk(s: Sub, closed: bool)
    requires SubOk(s, closed) && s.ch != [] && (s.consumer.Waiting? || s.consumer.Filling?)
    requires |s.consumer.Held()| < s.batchSize
    ensures SubOk(s.(ch := s.ch[1..], consumer := Filling(s.consumer.Held() + [s.ch[0]])), closed)
  {
    assert s.sent == s.handled + (s.consumer.Held() + [s.ch[0]]) + s.ch[1..];
  }

  lemma FinishOk(s: Sub, closed: bool)
    requires SubOk(s, closed) && s.consumer.Handling?
    ensures SubOk(s.(handled := s.handled + s.consumer.batch, consumer := Waiting), closed)
  {
    assert s.sent == s.handled + s.consumer.batch + [] + s.ch;
  }

  lemma QueuesKept(b: Bus, step: Step)
    requires Enabled(b, step) && QueuesOk(b)
    ensures QueuesOk(Apply(b, step))
  {
    match step
    case Send(p) => SendOk(b.subs[b.active[p].at.sub], b.closed, Item(p, b.active[p].payload));
    case Receive(i) =>
      assert [] + [b.subs[i].ch[0]] == [b.subs[i].ch[0]];
      TakeOk(b.subs[i], b.closed);
    case Fill(i) => TakeOk(b.subs[i], b.closed);
    case Handled(i) => FinishOk(b.subs[i], b.closed);
    case _ => QuietlyKept(b, step);
  }

  lemma QuietlyKept(b: Bus, step: Step)
    requires Enabled(b, step) && QueuesOk(b)
    requires !step.Send? && !step.Receive? && !step.Fill? && !step.Handled?
    ensures QueuesOk(Apply(b, step))
  {
  }

  // ----------------------------------------------------------------------------------- inflight

  function Load(s: Sub): nat {
    |s.consumer.Held()| + |s.ch|
  }

  ghost function Sum(f: Sub -> nat, subs: map<SubId, Sub>, keys: set<SubId>): nat
    requires keys <= subs.Keys
  {
    if keys == {} then 0
    else
      var i := AnyOf(keys);
      f(subs[i]) + Sum(f, subs, keys - {i})
  }

  ghost function LoadOf(subs: map<SubId, Sub>): nat {
    Sum(Load, subs, subs.Keys)
  }

  ghost function Reservations(b: Bus): set<PubId> {
    set p | p in b.active && b.active[p].at.Reserved?
  }

  /** The counter is the payloads reserved by a publisher, waiting in a channel, or in a batch. */
  ghost predicate InflightOk(b: Bus) {
    b.inflight == |Reservations(b)| + LoadOf(b.subs)
  }

  lemma {:induction false} SumSplit(f: Sub -> nat, subs: map<SubId, Sub>, keys: set<SubId>, x: SubId)
    requires x in keys && keys <= subs.Keys
    ensures Sum(f, subs, keys) == f(subs[x]) + Sum(f, subs, keys - {x})
    decreases keys
  {
    var i := AnyOf(keys);
    if i != x {
      SumSplit(f, subs, keys - {i}, x);
      SumSplit(f, subs, keys - {x}, i);
      assert keys - {i} - {x} == keys - {x} - {i};
    }
  }

  lemma {:induction false} SumSame(f: Sub -> nat, p: map<SubId, Sub>, q: map<SubId, Sub>, keys: set<SubId>)
    requires keys <= p.Keys && keys <= q.Keys && forall i :: i in keys ==> f(p[i]) == f(q[i])
    ensures Sum(f, p, keys) == Sum(f, q, keys)
    decreases keys
  {
    if keys != {} {
      var x := AnyOf(keys);
      SumSplit(f, p, keys, x);
      SumSplit(f, q, keys, x);
      SumSame(f, p, q, keys - {x});
    }
  }

  lemma SumUpdate(f: Sub -> nat, subs: map<SubId, Sub>, x: SubId, s: Sub)
    ensures Sum(f, subs[x := s], subs[x := s].Keys) ==
            Sum(f, subs, subs.Keys) - (if x in subs then f(subs[x]) else 0) + f(s)
  {
    var q := subs[x := s];
    assert q.Keys == subs.Keys + {x};
    SumSplit(f, q, subs.Keys + {x}, x);
    SumSame(f, q, subs, subs.Keys - {x});
    assert subs.Keys + {x} - {x} == subs.Keys - {x};
    if x in subs {
      SumSplit(f, subs, subs.Keys, x);
    } else {
      assert subs.Keys - {x} == subs.Keys;
    }
  }

  lemma ReservationsMove(b: Bus, step: Step)
    requires Enabled(b, step)
    ensures var q := Apply(b, step);
      match step
      case Reserve(p) => p !in Reservations(b) && Reservations(q) == Reservations(b) + {p}
      case Send(p) => p in Reservations(b) && Reservations(q) == Reservations(b) - {p}
      case _ => Reservations(q) == Reservations(b)
  {
  }

  /** What a step adds to the payloads in channels and batches. */
  ghost function Loaded(b: Bus, step: Step): int
    requires Enabled(b, step)
  {
    match step
    case Send(_) => 1
    case Handled(i) => -|b.subs[i].consumer.batch|
    case _ => 0
  }

  lemma OneSubMoves(b: Bus, step: Step, i: SubId)
    requires Enabled(b, step)
    requires var q := Apply(b, step); i in q.subs && q.subs == b.subs[i := q.subs[i]]
    ensures LoadOf(Apply(b, step).subs) ==
            LoadOf(b.subs) + Load(Apply(b, step).subs[i]) - (if i in b.subs then Load(b.subs[i]) else 0)
  {
    SumUpdate(Load, b.subs, i, Apply(b, step).subs[i]);
  }

  lemma LoadMoves(b: Bus, step: Step)
    requires Enabled(b, step)
    ensures LoadOf(Apply(b, step).subs) == LoadOf(b.subs) + Loaded(b, step)
  {
    var q := Apply(b, step);
    match step
    case Subscribe(_, _, _, sub) => OneSubMoves(b, step, sub);
    case Send(p) => OneSubMoves(b, step, b.active[p].at.sub);
    case Receive(i) => OneSubMoves(b, step, i);
    case Fill(i) => OneSubMoves(b, step, i);
    case Flush(i) => OneSubMoves(b, step, i);
    case Handled(i) => OneSubMoves(b, step, i);
    case Exit(i) => OneSubMoves(b, step, i);
    case Close =>
      SumSame(Load, b.subs, q.subs, b.subs.Keys);
      assert q.subs.Keys == b.subs.Keys;
    case _ => assert q.subs == b.subs;
  }

  lemma InflightKept(b: Bus, step: Step)
    requires Enabled(b, step) && InflightOk(b)
    ensures InflightOk(Apply(b, step))
  {
    ReservationsMove(b, step);
    LoadMoves(b, step);
  }
}
