/**
 The consume loop of redis.go as code.  Redis is an object the loop calls; what can go wrong in one
 iteration, and what others do between iterations, comes in as a script.  Consume does nothing but
 protocol steps, so everything proved in RedisGuarantees holds of it.
 */
module RedisConsumer {
  import opened Wrappers
  import opened RedisStream
  import opened RedisProtocol
  import opened RedisGuarantees

  datatype Reply = Entries(es: seq<Entry>) | Nil | NoSuchGroup

  class Redis {
    var state: Server
    var clock: Id

    constructor (state: Server, clock: Id)
      ensures this.state == state && this.clock == clock
    {
      this.state, this.clock := state, clock;
    }

    method XAdd(gap: nat, payload: Option<string>)
      modifies this
      ensures clock == old(clock) + 1 + gap && state == Append(old(state), Entry(clock, payload))
    {
      clock := clock + 1 + gap;
      state := Append(state, Entry(clock, payload));
    }

    method XGroupCreate(from: Resume)
      modifies this`state
      ensures state == Create(old(state), from) && state.group.Some?
    {
      state := Create(state, from);
    }

    method XReadGroup(id: ReadFrom, n: nat) returns (r: Reply)
      modifies this`state
      ensures r.NoSuchGroup? <==> old(state).group.None?
      ensures old(state).group.None? ==> state == old(state)
      ensures old(state).group.Some? && id.After? ==>
                state == old(state) && r == Entries(Backlog(state, id.cursor, n))
      ensures old(state).group.Some? && id.New? ==>
                var es := Fresh(old(state), n);
                state == MarkDelivered(old(state), es) && r == if es == [] then Nil else Entries(es)
    {
      if state.group.None? {
        return NoSuchGroup;
      }
      if id.After? {
        return Entries(Backlog(state, id.cursor, n));
      }
      var es := Fresh(state, n);
      state := MarkDelivered(state, es);
      return if es == [] then Nil else Entries(es);
    }

    method XAck(ids: seq<Id>)
      modifies this`state
      ensures state == Acknowledge(old(state), set i | i in ids)
    {
      state := Acknowledge(state, set i | i in ids);
    }
  }

  /** A run of the protocol through these steps ends in s. */
  ghost predicate Reaches(steps: seq<Step>, s: System) {
    exists run :: IsRun(run, steps) && run[|steps|] == s
  }

  lemma ReachesNext(steps: seq<Step>, s: System, step: Step)
    requires Reaches(steps, s) && Enabled(s, step)
    ensures Reaches(steps + [step], Apply(s, step))
  {
    var run :| IsRun(run, steps) && run[|steps|] == s;
    var longer, more := run + [Apply(s, step)], steps + [step];
    forall i | 0 <= i < |more| ensures StepOk(longer, more, i) {
      if i < |steps| {
        assert StepOk(run, steps, i);
      }
    }
    assert IsRun(longer, more);
  }

  lemma ReachedOk(steps: seq<Step>, s: System)
    requires Reaches(steps, s)
    ensures Inv(s)
  {
    var run :| IsRun(run, steps) && run[|steps|] == s;
    EveryReachableState(run, steps, |steps|);
  }

  /** What happens in one iteration, or what others do before the next one. */
  datatype Event =
    | Turn(replyLost: bool, handlerOk: bool, ackApplied: bool)
    | Published(gap: nat, payload: Option<string>)
    | GroupLost
    | KeyLost

  /** One iteration in protocol steps. */
  ghost function Iteration(s: System, n: nat, turn: Event): System
    requires n >= 1 && turn.Turn? && s.proc.Some? && s.proc.value.phase.Reading?
  {
    if s.server.group.None? then Apply(Apply(s, NoGroup), Recreate)
    else if turn.replyLost then Apply(s, ReadReplyLost(n))
    else
      var r := Apply(s, Read(n));
      if r.proc.value.phase.Delivering? then Delivery(r, turn) else r
  }

  /** What deliver and the loop's bookkeeping after it amount to. */
  ghost function Delivery(s: System, turn: Event): System
    requires turn.Turn? && s.proc.Some? && s.proc.value.phase.Delivering? && s.proc.value.phase.es != []
  {
    var h := Apply(s, Handle(turn.handlerOk));
    if h.proc.value.phase.Acking? then Apply(h, Ack(turn.ackApplied)) else h
  }

  predicate AboutToRead(s: System) {
    s.proc.Some? && s.proc.value.phase.Reading?
  }

  /** What one event of the script makes of the system. */
  ghost function Happens(s: System, n: nat, event: Event): (q: System)
    requires n >= 1 && AboutToRead(s)
    ensures AboutToRead(q)
  {
    match event
    case Turn(_, _, _) => Iteration(s, n, event)
    case Published(gap, payload) => Apply(s, Publish(s.clock + 1 + gap, payload))
    case GroupLost => Apply(s, LoseGroup)
    case KeyLost => Apply(s, LoseKey)
  }

  /** What the whole script makes of it. */
  ghost function Scripted(s: System, n: nat, script: seq<Event>): (q: System)
    requires n >= 1 && AboutToRead(s)
    ensures AboutToRead(q)
  {
    if script == [] then s
    else Happens(Scripted(s, n, script[..|script| - 1]), n, script[|script| - 1])
  }

  class Subscription {
    const redis: Redis
    const batchSize: nat
    var readId: ReadFrom
    var lastId: Resume
    ghost var sys: System
    ghost var trace: seq<Step>

    /** The system came to its state by protocol steps only. */
    ghost predicate Traced()
      reads this
    {
      Reaches(trace, sys)
    }

    /** The fields are those of the protocol's consumer, about to read. */
    ghost predicate Valid()
      reads this, redis
    {
      && batchSize >= 1 && redis.state == sys.server && redis.clock == sys.clock
      && sys.proc == Some(Consumer(readId, lastId, Reading))
    }

    constructor (redis: Redis, batchSize: nat, ghost sys: System, ghost trace: seq<Step>)
      requires redis.state == sys.server && sys.proc == None && Reaches(trace, sys)
      ensures this.redis == redis && this.sys == sys && this.batchSize >= 1 && Traced()
    {
      this.redis := redis;
      this.batchSize := if batchSize < 1 then 1 else batchSize;
      this.sys, this.trace := sys, trace;
      readId, lastId := After(0), Live;
    }

    ghost method Take(step: Step)
      requires Traced() && Enabled(sys, step)
      modifies this`sys, this`trace
      ensures sys == Apply(old(sys), step) && Traced()
    {
      ReachesNext(trace, sys, step);
      sys, trace := Apply(sys, step), trace + [step];
    }

    /** Collects the payloads, calls the handler, acks on success; reports whether the batch is
        done with. */
    method Deliver(es: seq<Entry>, handlerOk: bool, ackApplied: bool) returns (done: bool, handed: seq<string>)
      modifies redis`state
      ensures handed == Payloads(es)
      ensures done == (WithPayload(es) == {} || handlerOk)
      ensures redis.state ==
              if WithPayload(es) != {} && handlerOk && ackApplied then Acknowledge(old(redis.state), WithPayload(es))
              else old(redis.state)
    {
      handed := [];
      var ids: seq<Id> := [];
      for i := 0 to |es|
        modifies {}
        invariant handed == Payloads(es[..i])
        invariant |handed| == |ids| && (set x | x in ids) == WithPayload(es[..i])
      {
        assert es[..i + 1][..i] == es[..i];
        assert forall e :: e in es[..i + 1] <==> e in es[..i] || e == es[i];
        assert WithPayload(es[..i + 1]) == WithPayload(es[..i]) + if es[i].payload.Some? then {es[i].id} else {};
        if es[i].payload.Some? {
          assert (set x | x in ids + [es[i].id]) == (set x | x in ids) + {es[i].id};
          handed := handed + [es[i].payload.value];
          ids := ids + [es[i].id];
        }
      }
      assert es[..|es|] == es;
      if |handed| == 0 {
        return true, handed;
      }
      assert ids[0] in WithPayload(es);
      if !handlerOk {
        return false, handed;
      }
      if ackApplied {
        redis.XAck(ids);
      }
      return true, handed;
    }

    /** The group is gone: recreate it where the last handled batch ended. */
    method Recover()
      requires Valid() && Traced() && redis.state.group.None?
      modifies this, redis`state
      ensures Valid() && Traced() && sys == Apply(Apply(old(sys), NoGroup), Recreate)
    {
      Take(NoGroup);
      redis.XGroupCreate(lastId);
      readId := New;
      Take(Recreate);
    }

    /** Hand over a batch; its last id becomes the resume position if it is done with. */
    method Process(entries: seq<Entry>, turn: Event)
      requires batchSize >= 1 && redis.state == sys.server && redis.clock == sys.clock && Traced()
      requires turn.Turn? && entries != [] && sys.proc == Some(Consumer(readId, lastId, Delivering(entries)))
      modifies this`lastId, this`sys, this`trace, redis`state
      ensures Valid() && Traced() && sys == Delivery(old(sys), turn)
    {
      var done, _ := Deliver(entries, turn.handlerOk, turn.ackApplied);
      Take(Handle(turn.handlerOk));
      if sys.proc.value.phase.Acking? {
        Take(Ack(turn.ackApplied));
      }
      if done {
        lastId := At(entries[|entries| - 1].id);
      }
    }

    /** One iteration of the loop, with the protocol steps it amounts to. */
    method Iterate(turn: Event)
      requires Valid() && Traced() && turn.Turn?
      modifies this, redis`state
      ensures Valid() && Traced()
      ensures sys == Iteration(old(sys), batchSize, turn)
    {
      var r := redis.XReadGroup(readId, batchSize);
      if r.NoSuchGroup? {
        Recover();
      } else if turn.replyLost {
        Take(ReadReplyLost(batchSize));
      } else {
        Take(Read(batchSize));
        if r.Entries? {
          var entries := r.es;
          if |entries| == 0 {
            readId := New;
          } else {
            if readId.After? {
              readId := After(entries[|entries| - 1].id);
            }
            Process(entries, turn);
          }
        }
      }
    }

    /** The whole of consume: the start, and then for every event of the script the protocol steps
        it amounts to. */
    method Consume(script: seq<Event>)
      requires batchSize >= 1 && redis.state == sys.server && redis.clock == sys.clock
      requires sys.proc == None && Traced()
      modifies this, redis
      ensures Valid() && Traced() && Inv(sys)
      ensures sys == Scripted(Apply(old(sys), Start), batchSize, script)
    {
      redis.XGroupCreate(Live);
      readId, lastId := After(0), Live;
      Take(Start);
      ghost var begun := sys;
      for i := 0 to |script|
        invariant Valid() && Traced() && sys == Scripted(begun, batchSize, script[..i])
      {
        assert script[..i + 1][..i] == script[..i];
        match script[i]
        case Turn(_, _, _) => Iterate(script[i]);
        case Published(gap, payload) =>
          redis.XAdd(gap, payload);
          Take(Publish(redis.clock, payload));
        case GroupLost =>
          redis.state := redis.state.(group := None);
          Take(LoseGroup);
        case KeyLost =>
          redis.state := Server([], 0, None);
          Take(LoseKey);
      }
      assert script[..|script|] == script;
      ReachedOk(trace, sys);
    }
  }

  function Payloads(es: seq<Entry>): seq<string> {
    if es == [] then []
    else
      var e := es[|es| - 1];
      Payloads(es[..|es| - 1]) + if e.payload.Some? then [e.payload.value] else []
  }

  lemma PayloadOfOne(e: Entry)
    ensures Payloads([e]) == match e.payload case Some(p) => [p] case None => []
  {
    assert [e][..0] == [];
  }

  lemma {:induction false} PayloadsConcat(es: seq<Entry>, fs: seq<Entry>)
    ensures Payloads(es + fs) == Payloads(es) + Payloads(fs)
  {
    if fs == [] {
      assert es + fs == es;
    } else {
      var front := fs[..|fs| - 1];
      PayloadsConcat(es, front);
      assert (es + fs)[..|es + fs| - 1] == es + front;
      assert (es + fs)[|es + fs| - 1] == fs[|fs| - 1];
    }
  }

  /** The handler gets the payloads of the entries that have one, once each and in their order: the
      payload of an entry comes behind those of the entries before it and ahead of those after it. */
  lemma PayloadsInOrder(es: seq<Entry>, e: Entry, fs: seq<Entry>)
    ensures Payloads([]) == []
    ensures Payloads(es + [e] + fs) ==
            Payloads(es) + (match e.payload case Some(p) => [p] case None => []) + Payloads(fs)
  {
    PayloadOfOne(e);
    PayloadsConcat(es, [e]);
    PayloadsConcat(es + [e], fs);
  }
}
