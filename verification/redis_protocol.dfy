/**
 The consume loop of internal/infra/eventbus/redis.go as a step machine over the abstract stream.
 One loop iteration is a read, a handler call and an acknowledgement; publishers, a lost group, a
 lost key and a crash can come between any two of them.
 */
module RedisProtocol {
  import opened Wrappers
  import opened RedisStream

  /** readID: "0" and later the last id read while the backlog is replayed, then ">". */
  datatype ReadFrom = After(cursor: Id) | New

  /** How far the loop body has come. */
  datatype Phase = Reading | Delivering(es: seq<Entry>) | Acking(es: seq<Entry>) | Recreating

  datatype Consumer = Consumer(readId: ReadFrom, lastId: Resume, phase: Phase)

  /** What is remembered about one run of the consumer, from ensureGroup to the crash:
      `read` lists the ids handed to deliver since the group was last created in this run. */
  datatype RunLog = RunLog(
    startPending: set<Id>, startLast: Id, recreated: bool,
    base: Id, read: seq<Id>, failed: set<Id>, lost: set<Id>)

  datatype System = System(
    server: Server,
    clock: Id,             // no id up to here will be given out again
    born: Id,              // where the group was created
    succeeded: set<Id>,    // entries whose handler returned success, in any run
    proc: Option<Consumer>,
    run: RunLog)

  function Init(): System {
    System(Server([], 0, None), 0, 0, {}, None, RunLog({}, 0, false, 0, [], {}, {}))
  }

  datatype Step =
    | Publish(id: Id, payload: Option<string>)
    | LoseGroup                  // XGROUP DESTROY
    | LoseKey                    // DEL, or a Redis restart without persistence
    | Start                      // consume begins: ensureGroup at "$"
    | Crash
    | Read(n: nat)               // XREADGROUP COUNT n answered
    | ReadReplyLost(n: nat)      // XREADGROUP took effect and its answer was lost
    | NoGroup                    // XREADGROUP answered NOGROUP
    | Recreate                   // ensureGroup at lastID
    | Handle(ok: bool)           // the body of deliver up to the handler's result
    | Ack(applied: bool)

  function WithPayload(es: seq<Entry>): set<Id> {
    set e | e in es && e.payload.Some? :: e.id
  }

  function Order(es: seq<Entry>): seq<Id> {
    seq(|es|, i requires 0 <= i < |es| => es[i].id)
  }

  predicate Enabled(s: System, step: Step) {
    match step
    case Publish(id, _) => id > s.clock
    case LoseGroup => true
    case LoseKey => true
    case Start => s.proc.None?
    case Crash => s.proc.Some?
    case Read(n) => n >= 1 && s.proc.Some? && s.proc.value.phase.Reading? && s.server.group.Some?
    case ReadReplyLost(n) => n >= 1 && s.proc.Some? && s.proc.value.phase.Reading? && s.server.group.Some?
    case NoGroup => s.proc.Some? && s.proc.value.phase.Reading? && s.server.group.None?
    case Recreate => s.proc.Some? && s.proc.value.phase.Recreating?
    case Handle(_) => s.proc.Some? && s.proc.value.phase.Delivering? && s.proc.value.phase.es != []
    case Ack(_) => s.proc.Some? && s.proc.value.phase.Acking? && s.proc.value.phase.es != []
  }

  function Apply(s: System, step: Step): System
    requires Enabled(s, step)
  {
    match step
    case Publish(id, payload) => s.(server := Append(s.server, Entry(id, payload)), clock := id)
    case LoseGroup => s.(server := s.server.(group := None))
    case LoseKey => s.(server := Server([], 0, None))
    case Start =>
      var r := Create(s.server, Live);
      var g := r.group.value;
      var born := if s.server.group.Some? then s.born else g.last;
      s.(server := r, born := born,
         proc := Some(Consumer(After(0), Live, Reading)),
         run := RunLog(g.pending, g.last, false, born, [], {}, {}))
    case Crash => s.(proc := None)
    case Read(n) => ApplyRead(s, s.proc.value, n)
    case ReadReplyLost(n) => if s.proc.value.readId.After? then s else LoseReply(s, Fresh(s.server, n))
    case NoGroup => s.(proc := Some(s.proc.value.(phase := Recreating)))
    case Recreate =>
      var c := s.proc.value;
      var r := Create(s.server, c.lastId);
      var born := if s.server.group.Some? then s.born else r.group.value.last;
      s.(server := r, born := born,
         proc := Some(c.(readId := New, phase := Reading)),
         run := s.run.(recreated := true, read := [], base := if c.lastId.Live? then born else s.run.base))
    case Handle(ok) =>
      var c := s.proc.value;
      var es := c.phase.es;
      var ids := WithPayload(es);
      if ids == {} then s.(proc := Some(c.(lastId := At(es[|es| - 1].id), phase := Reading)))
      else if ok then s.(succeeded := s.succeeded + ids, proc := Some(c.(phase := Acking(es))))
      else s.(run := s.run.(failed := s.run.failed + ids), proc := Some(c.(phase := Reading)))
    case Ack(applied) =>
      var c := s.proc.value;
      var es := c.phase.es;
      s.(server := if applied then Acknowledge(s.server, WithPayload(es)) else s.server,
         proc := Some(c.(lastId := At(es[|es| - 1].id), phase := Reading)))
  }

  /** An answered read: the backlog after the cursor, or new entries once it is drained. */
  function ApplyRead(s: System, c: Consumer, n: nat): System
    requires s.server.group.Some?
  {
    match c.readId
    case After(cursor) =>
      var es := Backlog(s.server, cursor, n);
      if es == [] then s.(proc := Some(c.(readId := New)))
      else s.(proc := Some(c.(readId := After(es[|es| - 1].id), phase := Delivering(es))),
              run := s.run.(read := s.run.read + Order(es)))
    case New =>
      var es := Fresh(s.server, n);
      if es == [] then s
      else s.(server := MarkDelivered(s.server, es),
              proc := Some(c.(phase := Delivering(es))),
              run := s.run.(read := s.run.read + Order(es)))
  }

  function LoseReply(s: System, es: seq<Entry>): System
    requires s.server.group.Some?
  {
    s.(server := MarkDelivered(s.server, es), run := s.run.(lost := s.run.lost + Ids(es)))
  }
}
