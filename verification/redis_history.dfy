/** Where reading starts and resumes, and that a fresh group never sees what was there before it. */
module RedisHistory {
  import opened RedisStream
  import opened RedisProtocol
  import opened RedisGuarantees

  /** A run that finds no group makes one behind everything in the stream, with nothing pending; a
      group that is there is left as it is. */
  lemma StartIsLive(s: System)
    requires Ok(s.server, s.clock) && Enabled(s, Start)
    ensures var q := Apply(s, Start);
      && q.server.stream == s.server.stream && q.server.group.Some?
      && (s.server.group.Some? ==> q.server.group == s.server.group)
      && (s.server.group.None? ==>
            && q.server.group.value.pending == {} && q.server.group.value.last <= s.clock
            && forall e :: e in s.server.stream ==> e.id <= q.server.group.value.last)
  {
  }

  /** A lost group is made again right behind the last batch the run was done with, or, if there was
      none, behind everything in the stream. */
  lemma RecreateResumes(s: System)
    requires Inv(s) && Enabled(s, Recreate)
    ensures var q := Apply(s, Recreate);
      && q.server.stream == s.server.stream && q.server.group.Some? && q.server.group.value.pending == {}
      && match s.proc.value.lastId
         case At(id) => q.server.group.value.last == id
         case Live => forall e :: e in s.server.stream ==> e.id <= q.server.group.value.last
  {
  }

  /** id is that of the batch's last entry. */
  ghost predicate Ends(es: seq<Entry>, id: Id) {
    (exists e :: e in es && e.id == id) && forall e :: e in es ==> e.id <= id
  }

  lemma SortedEnds(es: seq<Entry>)
    requires es != [] && Sorted(es)
    ensures Ends(es, es[|es| - 1].id)
  {
    assert es[|es| - 1] in es;
  }

  lemma InHandIsSorted(s: System)
    requires Inv(s) && s.proc.Some? && (s.proc.value.phase.Delivering? || s.proc.value.phase.Acking?)
    ensures Sorted(s.proc.value.phase.es)
  {
  }

  /** A batch that is done with, by an acknowledgement or for want of payloads, moves the resume
      position to its own last entry; one whose handler failed leaves it. */
  lemma ResumesBehindTheBatch(s: System, step: Step)
    requires Inv(s) && Enabled(s, step) && (step.Handle? || step.Ack?)
    ensures var c, d := s.proc.value, Apply(s, step).proc;
      && d.Some?
      && if step.Ack? || WithPayload(c.phase.es) == {} then d.value.lastId.At? && Ends(c.phase.es, d.value.lastId.id)
         else d.value.lastId == c.lastId
  {
    InHandIsSorted(s);
    SortedEnds(s.proc.value.phase.es);
  }

  // ---------------------------------------------------------------------------------- old history

  /** Nothing up to id x can still come to a handler. */
  ghost predicate Behind(s: System, x: Id) {
    && x <= s.clock
    && (s.server.group.Some? ==>
          && (forall e :: e in s.server.stream && e.id > s.server.group.value.last ==> e.id > x)
          && forall p :: p in s.server.group.value.pending ==> p > x)
    && (s.proc.Some? ==>
          && (forall e :: e in InFlight(s.proc.value) ==> e.id > x)
          && (s.proc.value.lastId.At? ==> s.proc.value.lastId.id > x))
  }

  lemma BacklogStaysBehind(s: System, n: nat, x: Id)
    requires Ok(s.server, s.clock) && Behind(s, x) && Enabled(s, Read(n)) && s.proc.value.readId.After?
    ensures Behind(Apply(s, Read(n)), x)
  {
    BacklogIsBatch(s.server, s.clock, s.proc.value.readId.cursor, n);
  }

  lemma FreshStaysBehind(s: System, n: nat, x: Id)
    requires Ok(s.server, s.clock) && Behind(s, x) && Enabled(s, Read(n)) && s.proc.value.readId.New?
    ensures Behind(Apply(s, Read(n)), x)
  {
    FreshIsBatch(s.server, s.clock, n);
    LastGrows(s.server, Fresh(s.server, n), x);
  }

  lemma LastGrows(r: Server, es: seq<Entry>, x: Id)
    requires r.group.Some? && Batch(r, Any, r.group.value.last, es)
    requires forall e :: e in r.stream && e.id > r.group.value.last ==> e.id > x
    requires forall p :: p in r.group.value.pending ==> p > x
    ensures var g := MarkDelivered(r, es).group.value;
      && (forall e :: e in r.stream && e.id > g.last ==> e.id > x)
      && (forall p :: p in g.pending ==> p > x)
      && (forall e :: e in es ==> e.id > x)
  {
    if es != [] {
      assert es[|es| - 1] in es;
    }
  }

  lemma StaysBehind(s: System, step: Step, x: Id)
    requires Inv(s) && Behind(s, x) && Enabled(s, step)
    ensures Behind(Apply(s, step), x)
  {
    match step
    case Read(n) =>
      if s.proc.value.readId.After? {
        BacklogStaysBehind(s, n, x);
      } else {
        FreshStaysBehind(s, n, x);
      }
    case ReadReplyLost(n) =>
      FreshIsBatch(s.server, s.clock, n);
      LastGrows(s.server, Fresh(s.server, n), x);
    case Handle(_) => assert s.proc.value.phase.es[|s.proc.value.phase.es| - 1] in InFlight(s.proc.value);
    case Ack(_) => assert s.proc.value.phase.es[|s.proc.value.phase.es| - 1] in InFlight(s.proc.value);
    case _ =>
  }

  lemma {:induction false} BehindFrom(run: seq<System>, steps: seq<Step>, m: nat, n: nat, x: Id)
    requires IsRun(run, steps) && m <= n < |run| && Behind(run[m], x)
    ensures Behind(run[n], x)
  {
    if m < n {
      BehindFrom(run, steps, m, n - 1, x);
      EveryReachableState(run, steps, n - 1);
      assert StepOk(run, steps, n - 1);
      StaysBehind(run[n - 1], steps[n - 1], x);
    }
  }

  lemma StartLeavesBehind(s: System, x: Id)
    requires Inv(s) && Enabled(s, Start) && s.server.group.None? && exists e :: e in s.server.stream && e.id == x
    ensures Behind(Apply(s, Start), x)
  {
    StartIsLive(s);
  }

  /** Once a run has made the group, no handler is ever given an entry that was in the stream then,
      whatever fails, crashes or is lost and made again later. */
  lemma HistoryNeverHandled(run: seq<System>, steps: seq<Step>, m: nat, n: nat, past: Entry, e: Entry)
    requires IsRun(run, steps) && m < n < |steps|
    requires steps[m] == Start && run[m].server.group.None? && past in run[m].server.stream
    requires steps[n].Handle? && run[n].proc.Some? && e in InFlight(run[n].proc.value)
    ensures e.id > past.id
  {
    EveryReachableState(run, steps, m);
    assert StepOk(run, steps, m);
    StartLeavesBehind(run[m], past.id);
    BehindFrom(run, steps, m + 1, n, past.id);
  }

  // -------------------------------------------------------------------------------------- batches

  /** A read leaves something for later only if its batch is full. */
  lemma ReadsAreFull(r: Server, clock: Id, cursor: Id, n: nat)
    requires Ok(r, clock) && r.group.Some? && n >= 1
    ensures |Fresh(r, n)| <= n && |Backlog(r, cursor, n)| <= n
    ensures |Fresh(r, n)| < n ==>
              forall e :: e in r.stream && e.id > r.group.value.last ==> e in Fresh(r, n)
    ensures |Backlog(r, cursor, n)| < n ==>
              forall e :: e in r.stream && e.id in r.group.value.pending && e.id > cursor ==> e in Backlog(r, cursor, n)
  {
    SelectMembers(r.stream, Any, r.group.value.last);
    SelectMembers(r.stream, Only(r.group.value.pending), cursor);
  }

  /** What a read with this cursor would hand over is there. */
  ghost predicate SomethingToRead(r: Server, from: ReadFrom)
    requires r.group.Some?
  {
    match from
    case After(cursor) => exists e :: e in r.stream && e.id in r.group.value.pending && e.id > cursor
    case New => exists e :: e in r.stream && e.id > r.group.value.last
  }

  function ReadOf(r: Server, from: ReadFrom, n: nat): seq<Entry>
    requires r.group.Some?
  {
    match from
    case After(cursor) => Backlog(r, cursor, n)
    case New => Fresh(r, n)
  }

  lemma ReadIsSome(r: Server, from: ReadFrom, n: nat)
    requires r.group.Some? && n >= 1
    ensures ReadOf(r, from, n) != [] <==> SomethingToRead(r, from)
  {
    var which := if from.After? then Only(r.group.value.pending) else Any;
    var after := if from.After? then from.cursor else r.group.value.last;
    SelectMembers(r.stream, which, after);
    FirstOfSome(Select(r.stream, which, after), n);
  }

  /** A read of the backlog hands over what is pending above its cursor and moves the cursor up to it;
      once nothing is, reading goes on with new entries, and hands over whichever there are. */
  lemma ReadsGoOn(s: System, n: nat)
    requires Inv(s) && Enabled(s, Read(n))
    ensures var c, d := s.proc.value, Apply(s, Read(n)).proc.value;
      && (d.phase.Delivering? <==> SomethingToRead(s.server, c.readId))
      && (!d.phase.Delivering? ==> d.phase.Reading? && d.readId == New)
      && (d.phase.Delivering? ==>
            && d.phase.es != []
            && d.readId == if c.readId.New? then New else After(d.phase.es[|d.phase.es| - 1].id))
      && d.lastId == c.lastId
  {
    ReadIsSome(s.server, s.proc.value.readId, n);
  }

  lemma FirstOfSome(all: seq<Entry>, n: nat)
    requires n >= 1
    ensures First(all, n) == [] <==> all == []
    ensures all == [] <==> forall e :: e !in all
  {
    if all != [] {
      assert all[0] in all;
    }
  }
}
