/** What leaves the pending list, and that entries without a payload never do. */
module RedisPending {
  import opened Wrappers
  import opened RedisStream
  import opened RedisProtocol
  import opened RedisGuarantees

  ghost predicate Pending(s: System, x: Id) {
    s.server.group.Some? && x in s.server.group.value.pending
  }

  /** As long as the group survives, an id leaves the pending list exactly when an applied
      acknowledgement of a batch holds it, with a payload. */
  lemma LeavesPendingIff(s: System, step: Step, x: Id)
    requires Inv(s) && Enabled(s, step) && Pending(s, x) && Apply(s, step).server.group.Some?
    ensures !Pending(Apply(s, step), x) <==>
              step == Ack(true) && x in WithPayload(s.proc.value.phase.es)
  {
  }

  /** The batch in hand consists of entries as they stand in the stream, if they still do. */
  ghost predicate InHandOk(s: System) {
    s.proc.Some? ==>
      forall e, f :: e in InFlight(s.proc.value) && f in s.server.stream && e.id == f.id ==> e == f
  }

  lemma SortedUnique(es: seq<Entry>, e: Entry, f: Entry)
    requires Sorted(es) && e in es && f in es && e.id == f.id
    ensures e == f
  {
  }

  lemma ReadInHand(s: System, n: nat)
    requires Enabled(s, Read(n)) && Ok(s.server, s.clock)
    ensures InHandOk(Apply(s, Read(n)))
  {
    var q := Apply(s, Read(n));
    FreshIsBatch(s.server, s.clock, n);
    if s.proc.value.readId.After? {
      BacklogIsBatch(s.server, s.clock, s.proc.value.readId.cursor, n);
    }
    forall e, f | e in InFlight(q.proc.value) && f in q.server.stream && e.id == f.id ensures e == f {
      SortedUnique(s.server.stream, e, f);
    }
  }

  lemma PublishInHand(s: System, id: Id, payload: Option<string>)
    requires Enabled(s, Publish(id, payload)) && RunOk(s) && InHandOk(s)
    ensures InHandOk(Apply(s, Publish(id, payload)))
  {
    if s.proc.Some? {
      forall e | e in InFlight(s.proc.value) ensures e.id < id {
      }
    }
  }

  lemma {:induction false} InHandAlways(run: seq<System>, steps: seq<Step>, n: nat)
    requires IsRun(run, steps) && n < |run|
    ensures InHandOk(run[n])
  {
    if n != 0 {
      InHandAlways(run, steps, n - 1);
      EveryReachableState(run, steps, n - 1);
      assert StepOk(run, steps, n - 1);
      match steps[n - 1]
      case Publish(id, payload) => PublishInHand(run[n - 1], id, payload);
      case Read(k) => ReadInHand(run[n - 1], k);
      case _ =>
    }
  }

  /** e has no payload and waits in the pending list. */
  ghost predicate Stuck(s: System, e: Entry) {
    e in s.server.stream && e.payload.None? && Pending(s, e.id)
  }

  lemma StuckKept(s: System, step: Step, e: Entry)
    requires Inv(s) && InHandOk(s) && Enabled(s, step) && Stuck(s, e) && Apply(s, step).server.group.Some?
    ensures Stuck(Apply(s, step), e)
  {
    LeavesPendingIff(s, step, e.id);
  }

  lemma StuckOneMore(run: seq<System>, steps: seq<Step>, n: nat, e: Entry)
    requires IsRun(run, steps) && n < |steps| && Stuck(run[n], e) && run[n + 1].server.group.Some?
    ensures Stuck(run[n + 1], e)
  {
    assert StepOk(run, steps, n);
    EveryReachableState(run, steps, n);
    InHandAlways(run, steps, n);
    StuckKept(run[n], steps[n], e);
  }

  /** An entry without a payload is never acknowledged: once pending it stays so, over crashes and
      restarts, as long as the group survives. */
  lemma {:induction false} NoPayloadStaysPending(run: seq<System>, steps: seq<Step>, m: nat, n: nat, e: Entry)
    requires IsRun(run, steps) && m <= n < |run|
    requires forall k :: m <= k <= n ==> run[k].server.group.Some?
    requires Stuck(run[m], e)
    ensures Stuck(run[n], e)
  {
    if m < n {
      NoPayloadStaysPending(run, steps, m, n - 1, e);
      StuckOneMore(run, steps, n - 1, e);
    }
  }
}
