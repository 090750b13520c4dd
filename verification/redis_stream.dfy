/**
 Redis as the consumer sees it: one stream, and one consumer group with one consumer, whose
 pending list holds what was delivered and not acknowledged (XADD, XGROUP CREATE, XREADGROUP and
 XACK in the Redis command reference).  Entry ids are positive and increasing; nothing is trimmed.
 */
module RedisStream {
  import opened Wrappers

  type Id = int

  /** An entry added by Publish carries a payload field; one added by anything else may not. */
  datatype Entry = Entry(id: Id, payload: Option<string>)

  datatype Group = Group(last: Id, pending: set<Id>)

  /** `top` is the id that "$" stands for: the last one the stream gave out, 0 for a new stream. */
  datatype Server = Server(stream: seq<Entry>, top: Id, group: Option<Group>)

  /** Where a group is created: "$" or a given id. */
  datatype Resume = Live | At(id: Id)

  ghost predicate Sorted(s: seq<Entry>) {
    forall i, j :: 0 <= i < j < |s| ==> s[i].id < s[j].id
  }

  /** Which entries a read is about: all of them, or the pending ones. */
  datatype Scope = Any | Only(ids: set<Id>) {
    predicate Has(id: Id) {
      Any? || id in ids
    }
  }

  function Select(s: seq<Entry>, which: Scope, after: Id): seq<Entry> {
    if s == [] then []
    else (if which.Has(s[0].id) && s[0].id > after then [s[0]] else []) + Select(s[1..], which, after)
  }

  function Ids(s: seq<Entry>): set<Id> {
    set e | e in s :: e.id
  }

  function First(s: seq<Entry>, n: nat): seq<Entry> {
    if |s| <= n then s else s[..n]
  }

  /** The next n entries the group has not delivered. */
  function Fresh(r: Server, n: nat): seq<Entry>
    requires r.group.Some?
  {
    First(Select(r.stream, Any, r.group.value.last), n)
  }

  /** The next n entries pending for the consumer after the cursor. */
  function Backlog(r: Server, cursor: Id, n: nat): seq<Entry>
    requires r.group.Some?
  {
    First(Select(r.stream, Only(r.group.value.pending), cursor), n)
  }

  function Append(r: Server, e: Entry): Server {
    r.(stream := r.stream + [e], top := e.id)
  }

  /** XGROUP CREATE: an existing group answers BUSYGROUP and stays as it is. */
  function Create(r: Server, from: Resume): Server {
    if r.group.Some? then r
    else r.(group := Some(Group(if from.Live? then r.top else from.id, {})))
  }

  /** The server's side of delivering new entries. */
  function MarkDelivered(r: Server, es: seq<Entry>): Server
    requires r.group.Some?
  {
    if es == [] then r
    else r.(group := Some(Group(es[|es| - 1].id, r.group.value.pending + Ids(es))))
  }

  /** XACK: a missing group acknowledges nothing. */
  function Acknowledge(r: Server, ids: set<Id>): Server {
    if r.group.None? then r
    else r.(group := Some(r.group.value.(pending := r.group.value.pending - ids)))
  }

  // ------------------------------------------------------------------------------------ lemmas

  lemma {:induction false} SelectMembers(s: seq<Entry>, which: Scope, after: Id)
    ensures forall e :: e in Select(s, which, after) <==> e in s && which.Has(e.id) && e.id > after
  {
    if s != [] {
      SelectMembers(s[1..], which, after);
      assert forall e :: e in s <==> e == s[0] || e in s[1..];
    }
  }

  lemma {:induction false} SelectSorted(s: seq<Entry>, which: Scope, after: Id)
    requires Sorted(s)
    ensures Sorted(Select(s, which, after))
  {
    if s != [] {
      var rest := Select(s[1..], which, after);
      assert Sorted(s[1..]);
      assert forall e :: e in s[1..] ==> s[0].id < e.id;
      SelectSorted(s[1..], which, after);
      SelectMembers(s[1..], which, after);
      forall i | 0 <= i < |rest| ensures s[0].id < rest[i].id {
        assert rest[i] in s[1..];
      }
    }
  }

  /** A batch is everything selected up to its last entry. */
  lemma FirstComplete(all: seq<Entry>, n: nat)
    requires Sorted(all)
    ensures var es := First(all, n);
      && |es| <= n && Sorted(es)
      && (forall e :: e in es ==> e in all && e.id <= es[|es| - 1].id)
      && (es != [] ==> forall e :: e in all && e.id <= es[|es| - 1].id ==> e in es)
  {
    var es := First(all, n);
    if es != [] {
      forall e | e in all && e.id <= es[|es| - 1].id ensures e in es {
        var i :| 0 <= i < |all| && all[i] == e;
        assert all[|es| - 1] == es[|es| - 1];
        assert es[i] == e;
      }
    }
  }

  /** Ids increase, none is above the clock, and only delivered entries are pending. */
  ghost predicate Ok(r: Server, clock: Id) {
    && Sorted(r.stream) && 0 <= r.top <= clock
    && (forall e :: e in r.stream ==> 0 < e.id <= r.top)
    && (r.group.Some? ==>
          && 0 <= r.group.value.last <= clock
          && r.group.value.pending <= Ids(r.stream)
          && forall p :: p in r.group.value.pending ==> p <= r.group.value.last)
  }

  /** es is the next batch of the entries it is about after `after`: none in between is
      missing. */
  ghost predicate Batch(r: Server, which: Scope, after: Id, es: seq<Entry>) {
    && Sorted(es)
    && (forall e :: e in es ==> e in r.stream && which.Has(e.id) && after < e.id <= es[|es| - 1].id)
    && (es != [] ==> forall e :: e in r.stream && which.Has(e.id) && after < e.id <= es[|es| - 1].id ==> e in es)
    && (es == [] ==> forall e :: e in r.stream && which.Has(e.id) ==> e.id <= after)
  }

  lemma TakenIsBatch(r: Server, which: Scope, after: Id, all: seq<Entry>, es: seq<Entry>)
    requires forall e :: e in all <==> e in r.stream && which.Has(e.id) && e.id > after
    requires Sorted(es) && (es == [] ==> all == [])
    requires forall e :: e in es ==> e in all && e.id <= es[|es| - 1].id
    requires es != [] ==> forall e :: e in all && e.id <= es[|es| - 1].id ==> e in es
    ensures Batch(r, which, after, es)
  {
  }

  lemma NextBatch(r: Server, which: Scope, after: Id, n: nat)
    requires Sorted(r.stream) && n >= 1
    ensures Batch(r, which, after, First(Select(r.stream, which, after), n))
  {
    var all := Select(r.stream, which, after);
    SelectMembers(r.stream, which, after);
    SelectSorted(r.stream, which, after);
    FirstComplete(all, n);
    TakenIsBatch(r, which, after, all, First(all, n));
  }

  lemma FreshIsBatch(r: Server, clock: Id, n: nat)
    requires Ok(r, clock) && r.group.Some? && n >= 1
    ensures Batch(r, Any, r.group.value.last, Fresh(r, n))
  {
    NextBatch(r, Any, r.group.value.last, n);
  }

  lemma BacklogIsBatch(r: Server, clock: Id, cursor: Id, n: nat)
    requires Ok(r, clock) && r.group.Some? && n >= 1
    ensures Batch(r, Only(r.group.value.pending), cursor, Backlog(r, cursor, n))
  {
    NextBatch(r, Only(r.group.value.pending), cursor, n);
  }

  lemma DeliveredOk(r: Server, clock: Id, es: seq<Entry>)
    requires Ok(r, clock) && r.group.Some? && Batch(r, Any, r.group.value.last, es)
    ensures Ok(MarkDelivered(r, es), clock)
  {
  }

  lemma AppendOk(r: Server, clock: Id, e: Entry)
    requires Ok(r, clock) && e.id > clock
    ensures Ok(Append(r, e), e.id)
  {
    var stream := r.stream + [e];
    assert Ids(stream) == Ids(r.stream) + {e.id} by {
      forall i | 0 <= i < |r.stream| ensures r.stream[i].id in Ids(stream) {
        assert stream[i] == r.stream[i];
      }
      assert stream[|r.stream|] == e;
    }
  }

  /** Every entry after `born` is not delivered yet, or pending, or among `done`. */
  ghost predicate Accounted(r: Server, born: Id, done: set<Id>)
    requires r.group.Some?
  {
    var g := r.group.value;
    && born <= g.last
    && forall e :: e in r.stream && e.id > born ==> e.id > g.last || e.id in g.pending || e.id in done
  }

  lemma DeliveredAccounted(r: Server, born: Id, done: set<Id>, es: seq<Entry>)
    requires r.group.Some? && Batch(r, Any, r.group.value.last, es) && Accounted(r, born, done)
    ensures Accounted(MarkDelivered(r, es), born, done)
  {
    if es != [] {
      var q := MarkDelivered(r, es);
      assert es[|es| - 1] in es;
      forall e | e in r.stream && e.id > born
        ensures e.id > q.group.value.last || e.id in q.group.value.pending || e.id in done
      {
        if r.group.value.last < e.id <= q.group.value.last {
          assert e in es;
        }
      }
    }
  }
}
