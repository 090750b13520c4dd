/** What reaches a socket's queue, over a whole run of the hub. */
module HubDelivery {
  import opened HubRegistry
  import opened HubProtocol
  import opened HubInvariants

  /** The payloads of the dispatch calls made for account a by steps i to j, in order. */
  function Dispatched(steps: seq<Step>, i: nat, j: nat, a: Account): seq<Payload>
    requires i <= j <= |steps|
  {
    if i == j then []
    else
      var last := steps[j - 1];
      Dispatched(steps, i, j - 1, a) + if last.Dispatch? && last.a == a then [last.p] else []
  }

  /** What the write pump of c took off its queue in the first n steps. */
  ghost function Taken(cfg: Config, run: seq<System>, steps: seq<Step>, c: ClientId, n: nat): seq<Payload>
    requires IsRun(cfg, run, steps) && n <= |steps|
  {
    if n == 0 then []
    else
      Taken(cfg, run, steps, c, n - 1) +
      (assert StepOk(cfg, run, steps, n - 1);
       if steps[n - 1].Receive? && steps[n - 1].c == c then [run[n - 1].reg.clients[c].out[0]] else [])
  }

  /** Everything put on c's queue in the first n steps: what was taken and what is still there. */
  ghost function Queued(cfg: Config, run: seq<System>, steps: seq<Step>, c: ClientId, n: nat): seq<Payload>
    requires IsRun(cfg, run, steps) && n <= |steps| && c in run[n].reg.clients
  {
    Taken(cfg, run, steps, c, n) + run[n].reg.clients[c].out
  }

  /** A dispatch adds to a queue exactly when its socket stays registered through it. */
  ghost predicate QueueMoved(s: System, q: System, step: Step, c: ClientId) {
    && c in s.reg.clients && c in q.reg.clients
    && q.reg.clients[c].account == s.reg.clients[c].account
    && (step.Receive? && step.c == c ==> s.reg.clients[c].out != [])
    && (q.reg.Registered(c) ==> s.reg.Registered(c))
    && q.reg.clients[c].out ==
       if step.Dispatch? && step.a == s.reg.clients[c].account && s.reg.Registered(c) && q.reg.Registered(c)
       then s.reg.clients[c].out + [step.p]
       else if step.Receive? && step.c == c then s.reg.clients[c].out[1..]
       else s.reg.clients[c].out
  }

  lemma QueueMoves(cfg: Config, s: System, step: Step, c: ClientId)
    requires Enabled(cfg, s, step) && c in s.reg.clients
    ensures QueueMoved(s, Apply(cfg, s, step), step, c)
  {
    Membership(cfg, s, step);
  }

  /** A client is new exactly when the step is its Join; it starts registered with an empty queue. */
  lemma ClientsAppear(cfg: Config, s: System, step: Step, c: ClientId)
    requires Enabled(cfg, s, step)
    ensures var q := Apply(cfg, s, step);
      && (c in q.reg.clients <==> c in s.reg.clients || c in Joined(step))
      && (c in Joined(step) ==> c !in s.reg.clients && q.reg.Registered(c) && q.reg.clients[c].out == [])
  {
    Membership(cfg, s, step);
  }

  /** What step n puts on c's queue. */
  ghost function Added(run: seq<System>, steps: seq<Step>, c: ClientId, n: nat): seq<Payload>
    requires n < |steps| < |run| && c in run[n].reg.clients
  {
    if steps[n].Dispatch? && steps[n].a == run[n].reg.clients[c].account
       && run[n].reg.Registered(c) && run[n + 1].reg.Registered(c) then [steps[n].p] else []
  }

  lemma QueuedMoves(cfg: Config, run: seq<System>, steps: seq<Step>, c: ClientId, n: nat)
    requires IsRun(cfg, run, steps) && n < |steps| && c in run[n].reg.clients
    ensures c in run[n + 1].reg.clients
    ensures run[n + 1].reg.clients[c].account == run[n].reg.clients[c].account
    ensures run[n + 1].reg.Registered(c) ==> run[n].reg.Registered(c)
    ensures Queued(cfg, run, steps, c, n + 1) == Queued(cfg, run, steps, c, n) + Added(run, steps, c, n)
  {
    assert StepOk(cfg, run, steps, n);
    QueueMoves(cfg, run[n], steps[n], c);
  }

  lemma {:induction false} NothingTaken(cfg: Config, run: seq<System>, steps: seq<Step>, c: ClientId, n: nat)
    requires IsRun(cfg, run, steps) && n <= |steps| && c !in run[n].reg.clients
    ensures Taken(cfg, run, steps, c, n) == []
  {
    if n != 0 {
      assert StepOk(cfg, run, steps, n - 1);
      ClientsAppear(cfg, run[n - 1], steps[n - 1], c);
      NothingTaken(cfg, run, steps, c, n - 1);
    }
  }

  /** Step n is the Join that registered c, whose queue starts empty. */
  lemma JoinStartsEmpty(cfg: Config, run: seq<System>, steps: seq<Step>, c: ClientId, n: nat)
    requires IsRun(cfg, run, steps) && n < |steps| && c !in run[n].reg.clients && c in run[n + 1].reg.clients
    ensures c in Joined(steps[n]) && run[n + 1].reg.Registered(c)
    ensures Queued(cfg, run, steps, c, n + 1) == []
  {
    assert StepOk(cfg, run, steps, n);
    ClientsAppear(cfg, run[n], steps[n], c);
    NothingTaken(cfg, run, steps, c, n);
  }

  /** c joined with step i and was unregistered by step j, or is still registered and j is n. */
  ghost predicate Stay(run: seq<System>, steps: seq<Step>, c: ClientId, n: nat, i: nat, j: nat)
    requires |run| == |steps| + 1 && n <= |steps|
  {
    && i < j <= n && c in Joined(steps[i])
    && if run[n].reg.Registered(c) then j == n else j < n && run[j].reg.Registered(c) && !run[j + 1].reg.Registered(c)
  }

  lemma StayLonger(cfg: Config, run: seq<System>, steps: seq<Step>, c: ClientId, n: nat, i: nat, j: nat)
    requires IsRun(cfg, run, steps) && n < |steps| && c in run[n].reg.clients && Stay(run, steps, c, n, i, j)
    requires Queued(cfg, run, steps, c, n) == Dispatched(steps, i + 1, j, run[n].reg.clients[c].account)
    ensures c in run[n + 1].reg.clients
    ensures var k := if run[n + 1].reg.Registered(c) then n + 1 else j;
      && Stay(run, steps, c, n + 1, i, k)
      && Queued(cfg, run, steps, c, n + 1) == Dispatched(steps, i + 1, k, run[n + 1].reg.clients[c].account)
  {
    QueuedMoves(cfg, run, steps, c, n);
  }

  /** The payloads queued for c by step n are exactly the dispatches of its account after step i,
      where c joined, and before step j, where it was unregistered (or n if it still is). */
  lemma {:induction false} GapFree(cfg: Config, run: seq<System>, steps: seq<Step>, c: ClientId, n: nat)
    returns (i: nat, j: nat)
    requires IsRun(cfg, run, steps) && n <= |steps| && c in run[n].reg.clients
    ensures Stay(run, steps, c, n, i, j)
    ensures Queued(cfg, run, steps, c, n) == Dispatched(steps, i + 1, j, run[n].reg.clients[c].account)
  {
    if c in run[n - 1].reg.clients {
      i, j := GapFree(cfg, run, steps, c, n - 1);
      StayLonger(cfg, run, steps, c, n - 1, i, j);
      j := if run[n].reg.Registered(c) then n else j;
    } else {
      i, j := n - 1, n;
      JoinStartsEmpty(cfg, run, steps, c, n - 1);
    }
  }

  /** Once unregistered, a socket stays so and nothing is put on its queue again. */
  lemma {:induction false} NothingAfterRemoval(cfg: Config, run: seq<System>, steps: seq<Step>, c: ClientId,
                                               m: nat, n: nat)
    requires IsRun(cfg, run, steps) && m <= n <= |steps|
    requires c in run[m].reg.clients && !run[m].reg.Registered(c)
    ensures c in run[n].reg.clients && !run[n].reg.Registered(c)
    ensures Queued(cfg, run, steps, c, n) == Queued(cfg, run, steps, c, m)
  {
    if m < n {
      NothingAfterRemoval(cfg, run, steps, c, m, n - 1);
      QueuedMoves(cfg, run, steps, c, n - 1);
    }
  }

  /** A socket's backlog never exceeds SendBuffer. */
  lemma {:induction false} BacklogBounded(cfg: Config, run: seq<System>, steps: seq<Step>, c: ClientId, n: nat)
    requires IsRun(cfg, run, steps) && n <= |steps| && c in run[n].reg.clients
    ensures |run[n].reg.clients[c].out| <= cfg.sendBuffer
  {
    if n != 0 {
      assert StepOk(cfg, run, steps, n - 1);
      ClientsAppear(cfg, run[n - 1], steps[n - 1], c);
      if c in run[n - 1].reg.clients {
        BacklogBounded(cfg, run, steps, c, n - 1);
        QueueMoves(cfg, run[n - 1], steps[n - 1], c);
      }
    }
  }

  /** What takes a registered socket off the registry: its own Leave, the failed subscribe of its
      entry's Join, or a message of its account that finds its buffer full. */
  ghost predicate Unregisters(cfg: Config, s: System, step: Step, c: ClientId)
    requires c in s.reg.clients
  {
    var a := s.reg.clients[c].account;
    match step
    case Leave(_, d) => d == c
    case JoinAbandon(t) =>
      t in s.threads && s.threads[t].Refused? && s.threads[t].account == a
      && a in s.reg.subs && s.reg.subs[a] == s.threads[t].sub
    case Dispatch(_, b, _) => b == a && |s.reg.clients[c].out| >= cfg.sendBuffer
    case _ => false
  }

  lemma UnregistersIff(cfg: Config, s: System, step: Step, c: ClientId)
    requires Enabled(cfg, s, step) && JoinsOk(s) && c in s.reg.clients && s.reg.Registered(c)
    ensures !Apply(cfg, s, step).reg.Registered(c) <==> Unregisters(cfg, s, step, c)
  {
    match step
    case Dispatch(_, a, p) => DeliverReaches(cfg, s.reg, a, p, c);
    case JoinAbandon(t) => assert JoiningFor(s, t, s.threads[t].sub);
    case _ => Membership(cfg, s, step);
  }

  /** Over any run, a registered socket stops being so exactly there, and a message drops it only
      with SendBuffer payloads unread. */
  lemma DroppedOnlyWhenFull(cfg: Config, run: seq<System>, steps: seq<Step>, n: nat, c: ClientId)
    requires cfg.Valid() && IsRun(cfg, run, steps) && n < |steps|
    requires c in run[n].reg.clients && run[n].reg.Registered(c)
    ensures !run[n + 1].reg.Registered(c) <==> Unregisters(cfg, run[n], steps[n], c)
    ensures steps[n].Dispatch? && !run[n + 1].reg.Registered(c) ==> |run[n].reg.clients[c].out| == cfg.sendBuffer
  {
    EveryReachableState(cfg, run, steps, n);
    BacklogBounded(cfg, run, steps, c, n);
    assert StepOk(cfg, run, steps, n);
    UnregistersIff(cfg, run[n], steps[n], c);
  }

  /** In any reachable state a Join of an account is refused exactly when it has MaxPerAccount
      sockets registered. */
  lemma RefusedIffFull(cfg: Config, run: seq<System>, steps: seq<Step>, n: nat, t: ThreadId, a: Account)
    requires cfg.Valid() && IsRun(cfg, run, steps) && n < |run|
    ensures var s := run[n];
      Enabled(cfg, s, JoinTooMany(t, a)) <==>
        |set c | c in s.reg.clients && s.reg.Registered(c) && s.reg.clients[c].account == a| == cfg.maxPerAccount
  {
    EveryReachableState(cfg, run, steps, n);
    var s := run[n];
    var here := set c | c in s.reg.clients && s.reg.Registered(c) && s.reg.clients[c].account == a;
    if a in s.reg.subs {
      assert forall c :: c in here <==> c in s.reg.records[s.reg.subs[a]].clients;
      assert here == s.reg.records[s.reg.subs[a]].clients;
    } else {
      assert here == {};
    }
  }
}
