/** At-least-once delivery, what a lost group can cost, and the replay of the backlog. */
module RedisGuarantees {
  import opened Wrappers
  import opened RedisStream
  import opened RedisProtocol

  /** While the group survives, an entry added since its creation is not delivered yet, or pending,
      or its handler returned success. */
  ghost predicate AtLeastOnce(s: System) {
    s.server.group.Some? ==> Accounted(s.server, s.born, s.succeeded)
  }

  function InFlight(c: Consumer): seq<Entry> {
    match c.phase
    case Delivering(es) => es
    case Acking(es) => es
    case _ => []
  }

  /** This run's business with e is settled, or there is nothing in e to hand over. */
  predicate Settled(s: System, e: Entry) {
    e.id in s.succeeded || e.id in s.run.failed || e.id in s.run.lost || e.payload.None?
  }

  ghost predicate SettledUpTo(s: System, x: Id, es: seq<Entry>) {
    forall e :: e in s.server.stream && s.run.base < e.id <= x ==> Settled(s, e) || e in es
  }

  ghost predicate RunOk(s: System) {
    s.proc.Some? ==>
      var c := s.proc.value;
      var es := InFlight(c);
      && (c.lastId.At? ==> 0 <= c.lastId.id <= s.clock && SettledUpTo(s, c.lastId.id, []))
      && (c.phase.Delivering? || c.phase.Acking? ==>
            && es != [] && Sorted(es) && 0 <= es[|es| - 1].id <= s.clock
            && SettledUpTo(s, es[|es| - 1].id, es)
            && (c.lastId.At? ==> c.lastId.id < es[0].id))
      && (c.phase.Acking? ==> WithPayload(es) <= s.succeeded)
      && (c.phase.Recreating? ==> s.server.group.None?)
      && (c.readId.After? ==>
            && 0 <= c.readId.cursor <= s.clock
            && (c.lastId.At? ==> c.lastId.id <= c.readId.cursor)
            && (es != [] ==> es[|es| - 1].id == c.readId.cursor))
      && (s.server.group.Some? ==>
            var g := s.server.group.value;
            if c.readId.After? then
              && s.run.base == s.born && c.readId.cursor <= g.last
              && SettledUpTo(s, c.readId.cursor, es)
            else
              && SettledUpTo(s, g.last, es)
              && (c.lastId.At? ==> c.lastId.id <= g.last)
              && (es != [] ==> es[|es| - 1].id <= g.last))
  }

  lemma ServerKept(s: System, step: Step)
    requires Enabled(s, step) && Ok(s.server, s.clock) && RunOk(s)
    ensures Ok(Apply(s, step).server, Apply(s, step).clock)
  {
    match step
    case Publish(id, payload) => AppendOk(s.server, s.clock, Entry(id, payload));
    case Read(n) =>
      FreshIsBatch(s.server, s.clock, n);
      DeliveredOk(s.server, s.clock, Fresh(s.server, n));
    case ReadReplyLost(n) =>
      FreshIsBatch(s.server, s.clock, n);
      DeliveredOk(s.server, s.clock, Fresh(s.server, n));
    case _ =>
  }

  lemma AtLeastOnceKept(s: System, step: Step)
    requires Enabled(s, step) && Ok(s.server, s.clock) && RunOk(s) && AtLeastOnce(s)
    ensures AtLeastOnce(Apply(s, step))
  {
    if step.Read? || step.ReadReplyLost? {
      FreshIsBatch(s.server, s.clock, step.n);
      DeliveredAccounted(s.server, s.born, s.succeeded, Fresh(s.server, step.n));
    }
  }

  /** A backlog batch leaves nothing unsettled behind it: what lies before it and is not pending
      any more had its handler succeed. */
  lemma BacklogSettles(s: System, cursor: Id, es: seq<Entry>)
    requires s.server.group.Some? && Accounted(s.server, s.born, s.succeeded)
    requires s.run.base == s.born && SettledUpTo(s, cursor, [])
    requires Batch(s.server, Only(s.server.group.value.pending), cursor, es)
    requires forall p :: p in s.server.group.value.pending ==> p <= s.server.group.value.last
    ensures SettledUpTo(s, if es == [] then s.server.group.value.last else es[|es| - 1].id, es)
  {
    if es != [] {
      assert es[|es| - 1] in es;
    }
  }

  lemma BacklogReadKeepsRun(s: System, n: nat)
    requires Enabled(s, Read(n)) && Ok(s.server, s.clock) && AtLeastOnce(s) && RunOk(s)
    requires s.proc.value.readId.After?
    ensures RunOk(Apply(s, Read(n)))
  {
    var cursor := s.proc.value.readId.cursor;
    var es := Backlog(s.server, cursor, n);
    var q := Apply(s, Read(n));
    BacklogIsBatch(s.server, s.clock, cursor, n);
    BacklogSettles(s, cursor, es);
    if es != [] {
      assert es[|es| - 1] in es && es[0] in es;
    }
    assert forall x, t :: SettledUpTo(s, x, t) ==> SettledUpTo(q, x, t);
  }

  lemma FreshReadKeepsRun(s: System, n: nat)
    requires Enabled(s, Read(n)) && Ok(s.server, s.clock) && RunOk(s) && s.proc.value.readId.New?
    ensures RunOk(Apply(s, Read(n)))
  {
    FreshIsBatch(s.server, s.clock, n);
  }

  /** Settling more leaves what was settled so. */
  lemma SettledStays(s: System, q: System, x: Id, es: seq<Entry>)
    requires q.server.stream == s.server.stream && q.run.base == s.run.base
    requires s.succeeded <= q.succeeded && s.run.failed <= q.run.failed && s.run.lost <= q.run.lost
    requires SettledUpTo(s, x, es)
    ensures SettledUpTo(q, x, es)
  {
  }

  /** A batch whose ids are all settled can be forgotten. */
  lemma BatchSettled(s: System, x: Id, es: seq<Entry>)
    requires SettledUpTo(s, x, es) && forall e :: e in es ==> Settled(s, e)
    ensures SettledUpTo(s, x, [])
  {
  }

  lemma NoPayloadKeepsRun(s: System, ok: bool)
    requires Enabled(s, Handle(ok)) && RunOk(s) && WithPayload(s.proc.value.phase.es) == {}
    ensures RunOk(Apply(s, Handle(ok)))
  {
    var es := s.proc.value.phase.es;
    assert forall e :: e in es ==> e.payload.None? || e.id in WithPayload(es);
    forall x | SettledUpTo(s, x, es) ensures SettledUpTo(s, x, []) {
      BatchSettled(s, x, es);
    }
  }

  lemma SuccessKeepsRun(s: System)
    requires Enabled(s, Handle(true)) && RunOk(s) && WithPayload(s.proc.value.phase.es) != {}
    ensures RunOk(Apply(s, Handle(true)))
  {
    var q := Apply(s, Handle(true));
    forall x, t | SettledUpTo(s, x, t) ensures SettledUpTo(q, x, t) {
      SettledStays(s, q, x, t);
    }
  }

  lemma FailureKeepsRun(s: System)
    requires Enabled(s, Handle(false)) && RunOk(s) && WithPayload(s.proc.value.phase.es) != {}
    ensures RunOk(Apply(s, Handle(false)))
  {
    var es, q := s.proc.value.phase.es, Apply(s, Handle(false));
    assert forall e :: e in es ==> e.payload.None? || e.id in WithPayload(es);
    forall x, t | SettledUpTo(s, x, t) ensures SettledUpTo(q, x, t) {
      SettledStays(s, q, x, t);
    }
    forall x | SettledUpTo(q, x, es) ensures SettledUpTo(q, x, []) {
      BatchSettled(q, x, es);
    }
  }

  lemma HandleKeepsRun(s: System, ok: bool)
    requires Enabled(s, Handle(ok)) && RunOk(s)
    ensures RunOk(Apply(s, Handle(ok)))
  {
    if WithPayload(s.proc.value.phase.es) == {} {
      NoPayloadKeepsRun(s, ok);
    } else if ok {
      SuccessKeepsRun(s);
    } else {
      FailureKeepsRun(s);
    }
  }

  lemma AckKeepsRun(s: System, applied: bool)
    requires Enabled(s, Ack(applied)) && RunOk(s)
    ensures RunOk(Apply(s, Ack(applied)))
  {
    var es := s.proc.value.phase.es;
    assert forall e :: e in es ==> e.payload.None? || e.id in WithPayload(es);
    assert forall x :: SettledUpTo(s, x, es) ==> SettledUpTo(s, x, []);
  }

  lemma LostReplyKeepsRun(s: System, n: nat)
    requires Enabled(s, ReadReplyLost(n)) && Ok(s.server, s.clock) && RunOk(s)
    ensures RunOk(Apply(s, ReadReplyLost(n)))
  {
    FreshIsBatch(s.server, s.clock, n);
  }

  lemma PublishKeepsRun(s: System, id: Id, payload: Option<string>)
    requires Enabled(s, Publish(id, payload)) && Ok(s.server, s.clock) && RunOk(s)
    ensures RunOk(Apply(s, Publish(id, payload)))
  {
  }

  lemma OtherStepsKeepRun(s: System, step: Step)
    requires Enabled(s, step) && Ok(s.server, s.clock) && RunOk(s)
    requires !step.Publish? && !step.Read? && !step.ReadReplyLost? && !step.Handle? && !step.Ack?
    ensures RunOk(Apply(s, step))
  {
  }

  lemma RunKept(s: System, step: Step)
    requires Enabled(s, step) && Ok(s.server, s.clock) && AtLeastOnce(s) && RunOk(s)
    ensures RunOk(Apply(s, step))
  {
    match step
    case Read(n) =>
      if s.proc.value.readId.After? {
        BacklogReadKeepsRun(s, n);
      } else {
        FreshReadKeepsRun(s, n);
      }
    case Handle(ok) => HandleKeepsRun(s, ok);
    case Ack(applied) => AckKeepsRun(s, applied);
    case ReadReplyLost(n) => LostReplyKeepsRun(s, n);
    case Publish(id, payload) => PublishKeepsRun(s, id, payload);
    case _ => OtherStepsKeepRun(s, step);
  }

  // ------------------------------------------------------------------------ replay of the backlog

  ghost predicate Increasing(ids: seq<Id>) {
    forall i, j :: 0 <= i < j < |ids| ==> ids[i] < ids[j]
  }

  /** The ids handed to deliver since the group was last created increase, so none comes twice.
      Up to the cursor they are exactly the entries pending at the start; once the consumer reads
      new entries they are all of those and then newer ones. */
  ghost predicate ReplayOk(s: System) {
    s.proc.Some? ==>
      var c, log := s.proc.value, s.run;
      && Increasing(log.read)
      && (forall x :: x in log.startPending ==> x <= log.startLast)
      && (c.readId.After? ==>
            && !log.recreated
            && (forall x :: x in log.read <==> x in log.startPending && x <= c.readId.cursor)
            && (s.server.group.Some? ==>
                  && s.server.group.value.last == log.startLast
                  && forall x :: x > c.readId.cursor ==>
                       (x in s.server.group.value.pending <==> x in log.startPending)))
      && (c.readId.New? && !log.recreated ==>
            forall x :: x in log.startPending <==> x in log.read && x <= log.startLast)
      && (c.readId.New? && s.server.group.Some? ==>
            && (!log.recreated ==> log.startLast <= s.server.group.value.last)
            && forall x :: x in log.read ==> x <= s.server.group.value.last)
  }

  lemma ReadGrows(read: seq<Id>, es: seq<Entry>, x: Id)
    requires Increasing(read) && Sorted(es) && es != []
    requires forall i :: i in read ==> i <= x
    requires forall e :: e in es ==> e.id > x
    ensures Increasing(read + Order(es))
    ensures forall i :: i in read + Order(es) <==> i in read || i in Ids(es)
  {
    var order := Order(es);
    assert forall i :: 0 <= i < |es| ==> order[i] == es[i].id && es[i] in es;
    forall i | i in Ids(es) ensures i in order {
      var e :| e in es && e.id == i;
      var k :| 0 <= k < |es| && es[k] == e;
      assert order[k] == i;
    }
    var all := read + order;
    forall i, j | 0 <= i < j < |all| ensures all[i] < all[j] {
      if i < |read| <= j {
        assert read[i] in read && order[j - |read|] == es[j - |read|].id;
      }
    }
    forall i | i in Ids(es) ensures i in all {
      var k :| 0 <= k < |order| && order[k] == i;
      assert all[|read| + k] == i;
    }
  }

  /** Pending ids are ids of entries, so an exhausted backlog leaves none above the cursor. */
  lemma BacklogExhausted(r: Server, clock: Id, cursor: Id)
    requires Ok(r, clock) && r.group.Some? && Batch(r, Only(r.group.value.pending), cursor, [])
    ensures forall x :: x in r.group.value.pending ==> x <= cursor
  {
    forall x | x in r.group.value.pending ensures x <= cursor {
      assert x in Ids(r.stream);
      var e :| e in r.stream && e.id == x;
    }
  }

  /** A backlog batch takes every pending id up to its last one. */
  lemma BacklogTakesAll(r: Server, clock: Id, cursor: Id, es: seq<Entry>, x: Id)
    requires Ok(r, clock) && r.group.Some? && Batch(r, Only(r.group.value.pending), cursor, es) && es != []
    requires x in r.group.value.pending && cursor < x <= es[|es| - 1].id
    ensures x in Ids(es)
  {
    assert x in Ids(r.stream);
    var e :| e in r.stream && e.id == x;
    assert e in es;
  }

  lemma ReplayReadSome(s: System, n: nat)
    requires Enabled(s, Read(n)) && Ok(s.server, s.clock) && ReplayOk(s) && s.proc.value.readId.After?
    requires 0 <= s.proc.value.readId.cursor <= s.server.group.value.last
    requires Backlog(s.server, s.proc.value.readId.cursor, n) != []
    ensures ReplayOk(Apply(s, Read(n)))
  {
    var cursor := s.proc.value.readId.cursor;
    var es := Backlog(s.server, cursor, n);
    BacklogIsBatch(s.server, s.clock, cursor, n);
    ReadGrows(s.run.read, es, cursor);
    assert es[|es| - 1] in es;
    forall x | x in s.run.startPending && cursor < x <= es[|es| - 1].id ensures x in Ids(es) {
      BacklogTakesAll(s.server, s.clock, cursor, es, x);
    }
  }

  lemma ReplayReadBacklog(s: System, n: nat)
    requires Enabled(s, Read(n)) && Ok(s.server, s.clock) && ReplayOk(s) && s.proc.value.readId.After?
    requires 0 <= s.proc.value.readId.cursor <= s.server.group.value.last
    ensures ReplayOk(Apply(s, Read(n)))
  {
    var cursor := s.proc.value.readId.cursor;
    if Backlog(s.server, cursor, n) != [] {
      ReplayReadSome(s, n);
    } else {
      BacklogIsBatch(s.server, s.clock, cursor, n);
      BacklogExhausted(s.server, s.clock, cursor);
    }
  }

  lemma ReplayReadFresh(s: System, n: nat)
    requires Enabled(s, Read(n)) && Ok(s.server, s.clock) && ReplayOk(s) && s.proc.value.readId.New?
    ensures ReplayOk(Apply(s, Read(n)))
  {
    var last := s.server.group.value.last;
    var es := Fresh(s.server, n);
    FreshIsBatch(s.server, s.clock, n);
    if es != [] {
      ReadGrows(s.run.read, es, last);
      assert es[|es| - 1] in es;
    }
  }

  lemma ReplayAcked(s: System, applied: bool)
    requires Enabled(s, Ack(applied)) && RunOk(s) && ReplayOk(s)
    ensures ReplayOk(Apply(s, Ack(applied)))
  {
    var es := s.proc.value.phase.es;
    assert forall x :: x in WithPayload(es) ==> x <= es[|es| - 1].id;
  }

  lemma ReplayOthers(s: System, step: Step)
    requires Enabled(s, step) && Ok(s.server, s.clock) && RunOk(s) && ReplayOk(s)
    requires !step.Read? && !step.Ack?
    ensures ReplayOk(Apply(s, step))
  {
    if step.ReadReplyLost? {
      FreshIsBatch(s.server, s.clock, step.n);
    }
  }

  lemma ReplayKept(s: System, step: Step)
    requires Enabled(s, step) && Ok(s.server, s.clock) && RunOk(s) && ReplayOk(s)
    ensures ReplayOk(Apply(s, step))
  {
    match step
    case Read(n) =>
      if s.proc.value.readId.After? {
        ReplayReadBacklog(s, n);
      } else {
        ReplayReadFresh(s, n);
      }
    case Ack(applied) => ReplayAcked(s, applied);
    case _ => ReplayOthers(s, step);
  }

  // ------------------------------------------------------------------------------------- all runs

  ghost predicate Inv(s: System) {
    Ok(s.server, s.clock) && AtLeastOnce(s) && RunOk(s) && ReplayOk(s)
  }

  ghost predicate StepOk(run: seq<System>, steps: seq<Step>, i: nat)
    requires i < |steps| < |run|
  {
    Enabled(run[i], steps[i]) && run[i + 1] == Apply(run[i], steps[i])
  }

  ghost predicate IsRun(run: seq<System>, steps: seq<Step>) {
    && |run| == |steps| + 1 && run[0] == Init()
    && forall i :: 0 <= i < |steps| ==> StepOk(run, steps, i)
  }

  /** Whatever fails, is lost or crashes, and whenever: while the group survives, no entry added
      since its creation is forgotten before its handler succeeded. */
  lemma {:induction false} EveryReachableState(run: seq<System>, steps: seq<Step>, n: nat)
    requires IsRun(run, steps) && n < |run|
    ensures Inv(run[n])
  {
    if n != 0 {
      EveryReachableState(run, steps, n - 1);
      assert StepOk(run, steps, n - 1);
      ServerKept(run[n - 1], steps[n - 1]);
      AtLeastOnceKept(run[n - 1], steps[n - 1]);
      RunKept(run[n - 1], steps[n - 1]);
      ReplayKept(run[n - 1], steps[n - 1]);
    }
  }

  /** Within one run the resume position never moves back. */
  lemma LastIdNeverDecreases(s: System, step: Step)
    requires Inv(s) && Enabled(s, step) && s.proc.Some? && !step.Crash?
    requires s.proc.value.lastId.At?
    ensures var c := Apply(s, step).proc.value;
      c.lastId.At? && c.lastId.id >= s.proc.value.lastId.id
  {
  }

  /** A batch was handled in this run: recreating the lost group at lastID can only skip entries
      this run handed to a handler that failed, entries whose read reply was lost, and entries
      that carry no payload; everything after lastID will be delivered. */
  lemma RecreateSkipsOnlySettled(s: System, e: Entry)
    requires Inv(s) && Enabled(s, Recreate) && s.proc.value.lastId.At?
    requires e in s.server.stream && e.id > s.run.base
    ensures var q := Apply(s, Recreate);
      && q.server.group.Some? && q.born == s.proc.value.lastId.id
      && (e.id > q.server.group.value.last || Settled(q, e))
      && (s.run.failed == {} && s.run.lost == {} && e.payload.Some? ==>
            e.id > q.server.group.value.last || e.id in q.succeeded)
  {
  }

  ghost predicate Skipped(s: System, q: System, e: Entry)
    requires q.server.group.Some?
  {
    e in s.server.stream && s.run.base < e.id <= q.server.group.value.last && !Settled(s, e)
  }

  /** Exactly when a recreated group skips an entry that never came to a handler: no batch was
      handled yet, so the group restarts at "$", and there is such an entry. */
  lemma RecreateSkipsIff(s: System)
    requires Inv(s) && Enabled(s, Recreate)
    ensures var q := Apply(s, Recreate);
      && q.server.group.Some?
      && ((exists e :: Skipped(s, q, e)) <==>
            s.proc.value.lastId.Live? && exists e :: e in s.server.stream && e.id > s.run.base && !Settled(s, e))
  {
    var q := Apply(s, Recreate);
    if s.proc.value.lastId.Live? {
      forall e | e in s.server.stream && e.id > s.run.base && !Settled(s, e) ensures Skipped(s, q, e) {
      }
    } else {
      forall e | e in s.server.stream && s.run.base < e.id <= q.server.group.value.last ensures Settled(s, e) {
      }
    }
  }

  /** Such a run: an entry is published, the group is lost before it is read, and the recreated
      group starts behind it. */
  lemma RecreateCanSkip() returns (run: seq<System>, steps: seq<Step>, e: Entry)
    ensures IsRun(run, steps) && |run| == 6 && steps[4] == Recreate
    ensures e in run[5].server.stream && e.payload.Some?
    ensures run[5].server.group == Some(Group(e.id, {})) && run[5].run.read == [] && e.id !in run[5].succeeded
  {
    steps := [Start, Publish(1, Some("x")), LoseGroup, NoGroup, Recreate];
    e := Entry(1, Some("x"));
    var s1 := Apply(Init(), steps[0]);
    var s2 := Apply(s1, steps[1]);
    var s3 := Apply(s2, steps[2]);
    var s4 := Apply(s3, steps[3]);
    var s5 := Apply(s4, steps[4]);
    run := [Init(), s1, s2, s3, s4, s5];
    assert s2.server.stream == [e];
    forall i | 0 <= i < |steps| ensures StepOk(run, steps, i) {
      if i == 0 {} else if i == 1 {} else if i == 2 {} else if i == 3 {} else {}
    }
  }

  ghost function PendingAbove(r: Server, cursor: Id): set<Id>
    requires r.group.Some?
  {
    set x | x in r.group.value.pending && x > cursor
  }

  /** Every read of a non-empty backlog leaves fewer pending ids above the cursor, and the read
      that finds none switches to new entries: replay ends. */
  lemma BacklogShrinks(s: System, n: nat)
    requires Inv(s) && Enabled(s, Read(n)) && s.proc.value.readId.After?
    ensures var q := Apply(s, Read(n));
      && q.server == s.server
      && if q.proc.value.readId.New? then
           PendingAbove(s.server, s.proc.value.readId.cursor) == {} && s.run.startPending == set x | x in q.run.read
         else
           PendingAbove(s.server, q.proc.value.readId.cursor) < PendingAbove(s.server, s.proc.value.readId.cursor)
  {
    var cursor := s.proc.value.readId.cursor;
    var es := Backlog(s.server, cursor, n);
    BacklogIsBatch(s.server, s.clock, cursor, n);
    if es == [] {
      BacklogExhausted(s.server, s.clock, cursor);
      var read := set x | x in s.run.read;
      var pending := s.server.group.value.pending;
      forall x | x in s.run.startPending ensures x in read {
        assert x <= cursor || x in pending;
      }
      assert read == s.run.startPending;
    } else {
      var x := es[|es| - 1].id;
      assert es[|es| - 1] in es;
      assert x in PendingAbove(s.server, cursor) && x !in PendingAbove(s.server, x);
    }
  }
}
