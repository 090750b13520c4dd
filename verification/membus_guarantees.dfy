/** What holds in every state the bus can reach, and that Close comes to an end. */
module MembusGuarantees {
  import opened Wrappers
  import opened MembusProtocol
  import opened MembusInvariants
  import opened MembusDelivery
  import opened MembusRoundRobin
  import opened MembusEvenness

  ghost predicate Inv(b: Bus) {
    QueuesOk(b) && InflightOk(b) && TopicsOk(b) && DeliveredOk(b) && CursorsOk(b) && CountsOk(b)
  }

  ghost predicate StepOk(run: seq<Bus>, steps: seq<Step>, i: nat)
    requires i < |steps| < |run|
  {
    Enabled(run[i], steps[i]) && run[i + 1] == Apply(run[i], steps[i])
  }

  ghost predicate Follows(run: seq<Bus>, steps: seq<Step>) {
    |run| == |steps| + 1 && forall i :: 0 <= i < |steps| ==> StepOk(run, steps, i)
  }

  ghost predicate IsRun(run: seq<Bus>, steps: seq<Step>) {
    Follows(run, steps) && run[0] == Init()
  }

  lemma {:induction false} EveryReachableState(run: seq<Bus>, steps: seq<Step>, n: nat)
    requires IsRun(run, steps) && n < |run|
    ensures Inv(run[n])
  {
    if n == 0 {
      assert Reservations(Init()) == {};
    } else {
      EveryReachableState(run, steps, n - 1);
      assert StepOk(run, steps, n - 1);
      var b, step := run[n - 1], steps[n - 1];
      QueuesKept(b, step);
      InflightKept(b, step);
      TopicsKept(b, step);
      DeliveredKept(b, step);
      CursorsKept(b, step);
      CountsKept(b, step);
    }
  }

  /** Call p put its payload into subscription i at place n. */
  ghost predicate PutAt(b: Bus, p: PubId, i: SubId, n: int) {
    i in b.subs && 0 <= n < |b.subs[i].sent| && b.subs[i].sent[n].pub == p
  }

  /** Call p went through place m of subscription i of group g, and through no other of the group. */
  ghost predicate OnlyPlace(b: Bus, p: PubId, g: GroupName, i: SubId, m: int) {
    && PutAt(b, p, i, m) && b.subs[i].group == g
    && forall j, k :: PutAt(b, p, j, k) && b.subs[j].group == g ==> j == i && k == m
  }

  lemma PlaceIsInTopic(b: Bus, p: PubId, j: SubId, k: int)
    requires DeliveredOk(b) && PutAt(b, p, j, k)
    ensures Served(b, p, b.subs[j].group)
    ensures b.subs[j].topic == Call(b, p).value.topic && b.subs[j].sent[k].payload == Call(b, p).value.payload
  {
    assert ItemOk(b, j, b.subs[j].sent[k]);
  }

  lemma PlacesAgree(b: Bus, p: PubId, i: SubId, m: int, j: SubId, k: int)
    requires DeliveredOk(b) && PutAt(b, p, i, m) && PutAt(b, p, j, k) && b.subs[i].group == b.subs[j].group
    ensures j == i && k == m
  {
    PlaceIsInTopic(b, p, i, m);
    PlaceIsInTopic(b, p, j, k);
    assert b.subs[i].sent[m] in b.subs[i].sent && b.subs[j].sent[k] in b.subs[j].sent;
    assert Distinct(b.subs[i].sent);
  }

  lemma ReachedAtPlace(b: Bus, p: PubId, g: GroupName) returns (i: SubId, m: int)
    requires Call(b, p).Some? && Reached(b, p, g)
    ensures PutAt(b, p, i, m) && b.subs[i].group == g
  {
    var pub := Call(b, p).value;
    i :| InGroup(b, i, pub.topic, g) && Item(p, pub.payload) in b.subs[i].sent;
    m :| 0 <= m < |b.subs[i].sent| && b.subs[i].sent[m] == Item(p, pub.payload);
  }

  lemma ServedHasOnlyPlace(b: Bus, p: PubId, g: GroupName) returns (i: SubId, m: int)
    requires DeliveredOk(b) && Served(b, p, g)
    ensures OnlyPlace(b, p, g, i, m)
  {
    i, m := ReachedAtPlace(b, p, g);
    forall j, k | PutAt(b, p, j, k) && b.subs[j].group == g ensures j == i && k == m {
      PlacesAgree(b, p, i, m, j, k);
    }
  }

  /** An accepted Publish put its payload into exactly one place of exactly one subscription of every
      group its topic had when it began, and nowhere else. */
  lemma AcceptedReachesEachGroupOnce(run: seq<Bus>, steps: seq<Step>, n: nat, p: PubId)
    requires IsRun(run, steps) && n < |run| && p in run[n].accepted
    ensures var b, pub := run[n], run[n].accepted[p];
      && (forall g :: g in pub.groups ==> exists i, m :: OnlyPlace(b, p, g, i, m))
      && forall j, k :: PutAt(b, p, j, k) ==>
           && b.subs[j].topic == pub.topic && b.subs[j].group in pub.groups
           && b.subs[j].sent[k].payload == pub.payload
  {
    EveryReachableState(run, steps, n);
    var b, pub := run[n], run[n].accepted[p];
    forall j, k | PutAt(b, p, j, k)
      ensures b.subs[j].topic == pub.topic && b.subs[j].group in pub.groups && b.subs[j].sent[k].payload == pub.payload
    {
      PlaceIsInTopic(b, p, j, k);
    }
    forall g | g in pub.groups ensures exists i, m :: OnlyPlace(b, p, g, i, m) {
      assert Served(b, p, g);
      var i, m := ServedHasOnlyPlace(b, p, g);
    }
  }

  /** Its groups are those the topic had when the call began, and stay those until it ends. */
  lemma CallsSeeFixedGroups(run: seq<Bus>, steps: seq<Step>, n: nat, p: PubId)
    requires IsRun(run, steps) && n < |run| && p in run[n].active
    ensures var pub := run[n].active[p];
      pub.groups == run[n].Groups(pub.topic).Keys
  {
    EveryReachableState(run, steps, n);
  }

  lemma RefusedReachesNobody(run: seq<Bus>, steps: seq<Step>, n: nat, p: PubId, i: SubId, m: int)
    requires IsRun(run, steps) && n < |run| && p in run[n].refused
    ensures !PutAt(run[n], p, i, m)
  {
    EveryReachableState(run, steps, n);
    var b := run[n];
    if i in b.subs && 0 <= m < |b.subs[i].sent| {
      assert ItemOk(b, i, b.subs[i].sent[m]);
    }
  }

  /** No send meets a closed channel, and the subscription it sends to belongs to the group. */
  lemma NoSendOnClosedChannel(run: seq<Bus>, steps: seq<Step>, n: nat, p: PubId)
    requires IsRun(run, steps) && n < |run| && p in run[n].active && !run[n].active[p].at.Between?
    ensures var b, pub := run[n], run[n].active[p];
      InGroup(b, pub.at.sub, pub.topic, pub.at.g) && !b.subs[pub.at.sub].closed
  {
    EveryReachableState(run, steps, n);
  }

  /** Batches follow each other through the queue, each with 1 to BatchSize payloads. */
  lemma BatchesFollowTheQueue(run: seq<Bus>, steps: seq<Step>, n: nat)
    requires IsRun(run, steps) && n < |steps| && steps[n].Handled?
    ensures var i := steps[n].s;
      && i in run[n].subs && run[n].subs[i].consumer.Handling? && i in run[n + 1].subs
      && var batch := run[n].subs[i].consumer.batch;
      && 1 <= |batch| <= run[n].subs[i].batchSize
      && run[n + 1].subs[i].handled == run[n].subs[i].handled + batch
      && run[n + 1].subs[i].handled <= run[n + 1].subs[i].sent
  {
    EveryReachableState(run, steps, n);
    EveryReachableState(run, steps, n + 1);
    assert StepOk(run, steps, n);
  }

  lemma {:induction false} SumIsZero(f: Sub -> nat, subs: map<SubId, Sub>, keys: set<SubId>)
    requires keys <= subs.Keys && forall i :: i in keys ==> f(subs[i]) == 0
    ensures Sum(f, subs, keys) == 0
    decreases keys
  {
    if keys != {} {
      SumIsZero(f, subs, keys - {AnyOf(keys)});
    }
  }

  /** Close has returned: the bus is closed and every consumer has exited. */
  ghost predicate Drained(b: Bus) {
    b.closed && forall i :: i in b.subs ==> b.subs[i].consumer.Exited?
  }

  lemma DrainedIsHandled(b: Bus)
    requires Inv(b) && Drained(b)
    ensures b.inflight == 0 && b.active == map[]
    ensures forall i :: i in b.subs ==> b.subs[i].handled == b.subs[i].sent
  {
    forall i | i in b.subs ensures Load(b.subs[i]) == 0 {
    }
    SumIsZero(Load, b.subs, b.subs.Keys);
    assert Reservations(b) == {};
  }

  /** Then everything sent was handled in order, and so every accepted payload once per group. */
  lemma CloseLosesNothing(run: seq<Bus>, steps: seq<Step>, n: nat)
    requires IsRun(run, steps) && n < |run| && Drained(run[n])
    ensures run[n].inflight == 0 && run[n].active == map[]
    ensures forall i :: i in run[n].subs ==> run[n].subs[i].handled == run[n].subs[i].sent
  {
    EveryReachableState(run, steps, n);
    DrainedIsHandled(run[n]);
  }

  lemma SumCovers(f: Sub -> nat, subs: map<SubId, Sub>, keys: set<SubId>, i: SubId)
    requires i in keys && keys <= subs.Keys
    ensures f(subs[i]) <= Sum(f, subs, keys)
  {
    SumSplit(f, subs, keys, i);
  }

  /** Wait returns when the counter is zero: nothing that was sent is then unhandled. */
  lemma WaitSeesEverythingHandled(run: seq<Bus>, steps: seq<Step>, n: nat, i: SubId)
    requires IsRun(run, steps) && n < |run| && run[n].inflight == 0 && i in run[n].subs
    ensures run[n].subs[i].handled == run[n].subs[i].sent
  {
    EveryReachableState(run, steps, n);
    SumCovers(Load, run[n].subs, run[n].subs.Keys, i);
  }

  /** The counter never goes below zero, which would panic. */
  lemma InflightIsNeverNegative(run: seq<Bus>, steps: seq<Step>, n: nat)
    requires IsRun(run, steps) && n < |run|
    ensures run[n].inflight >= 0
  {
    EveryReachableState(run, steps, n);
  }

  // ------------------------------------------------------------------------------------ progress

  /** The consumer's next step, unless it waits for a payload or has exited. */
  ghost predicate Ready(b: Bus, i: SubId) {
    && i in b.subs && !b.subs[i].consumer.Exited?
    && (b.subs[i].consumer.Waiting? ==> b.subs[i].ch != [] || b.subs[i].closed)
  }

  ghost function Next(b: Bus, i: SubId): (step: Step)
    requires Ready(b, i)
    ensures Enabled(b, step)
  {
    match b.subs[i].consumer
    case Waiting => if b.subs[i].ch != [] then Receive(i) else Exit(i)
    case Filling(_) => Flush(i)
    case Handling(_) => Handled(i)
  }

  /** Publish blocks only on a full channel, whose consumer can then move; so publishers and
      consumers never wait for each other forever. */
  lemma PublishersNeverDeadlock(run: seq<Bus>, steps: seq<Step>, n: nat, p: PubId)
    requires IsRun(run, steps) && n < |run| && p in run[n].active
    ensures var b, pub := run[n], run[n].active[p];
      match pub.at
      case Chosen(_, _) => Enabled(b, Reserve(p))
      case Reserved(_, i) => i in b.subs && if |b.subs[i].ch| < BUFFER then Enabled(b, Send(p)) else Ready(b, i)
      case Between =>
        if pub.todo == {} then Enabled(b, PublishEnd(p)) else forall g :: g in pub.todo ==> Enabled(b, Choose(p, g))
  {
    EveryReachableState(run, steps, n);
    var b, pub := run[n], run[n].active[p];
    if pub.at.Between? {
      forall g | g in pub.todo ensures Enabled(b, Choose(p, g)) {
        assert b.Has(pub.topic, g);
        assert GroupOk(b, pub.topic, g, b.Groups(pub.topic)[g]);
      }
    }
  }

  /** How many steps a consumer can still take once its channel is closed. */
  function Work(s: Sub): nat {
    3 * |s.ch| + match s.consumer
                 case Exited => 0
                 case Waiting => 1
                 case Handling(_) => 2
                 case Filling(_) => 3
  }

  predicate Consumes(step: Step) {
    step.Receive? || step.Fill? || step.Flush? || step.Handled? || step.Exit?
  }

  lemma WorkDecreases(b: Bus, step: Step)
    requires Enabled(b, step) && b.closed && b.active == map[]
    ensures var q := Apply(b, step);
      && q.closed && q.active == map[]
      && if Consumes(step) then Sum(Work, q.subs, q.subs.Keys) < Sum(Work, b.subs, b.subs.Keys)
         else q.subs == b.subs
  {
    var q := Apply(b, step);
    if Consumes(step) {
      assert q.subs == b.subs[step.s := q.subs[step.s]];
      SumUpdate(Work, b.subs, step.s, q.subs[step.s]);
    }
  }

  function Consumed(steps: seq<Step>): nat {
    if steps == [] then 0 else Consumed(steps[..|steps| - 1]) + if Consumes(steps[|steps| - 1]) then 1 else 0
  }

  /** After Close the consumers take a bounded number of steps, whatever their order. */
  lemma {:induction false} CloseIsBounded(run: seq<Bus>, steps: seq<Step>)
    requires Follows(run, steps) && run[0].closed && run[0].active == map[]
    ensures run[|steps|].closed && run[|steps|].active == map[]
    ensures Consumed(steps) + Sum(Work, run[|steps|].subs, run[|steps|].subs.Keys) <=
            Sum(Work, run[0].subs, run[0].subs.Keys)
  {
    if steps != [] {
      var n := |steps| - 1;
      forall i | 0 <= i < n ensures StepOk(run[..|steps|], steps[..n], i) {
        assert StepOk(run, steps, i);
      }
      CloseIsBounded(run[..|steps|], steps[..n]);
      assert StepOk(run, steps, n);
      WorkDecreases(run[n], steps[n]);
    }
  }

  /** Until all have exited, some consumer can move: with CloseIsBounded, Close returns. */
  lemma CloseNeverStalls(run: seq<Bus>, steps: seq<Step>, n: nat)
    requires IsRun(run, steps) && n < |run| && run[n].closed && !Drained(run[n])
    ensures exists i :: Ready(run[n], i)
  {
    EveryReachableState(run, steps, n);
    var i :| i in run[n].subs && !run[n].subs[i].consumer.Exited?;
    assert Ready(run[n], i);
  }

  // ------------------------------------------------------------------------------------ evenness

  lemma {:induction false} NoGrowthFollows(run: seq<Bus>, steps: seq<Step>, m: nat, n: nat, t: Topic, g: GroupName)
    requires IsRun(run, steps) && m <= n < |run| && run[m].Has(t, g)
    requires Stable(steps, m, n, t, g)
    ensures run[n].Has(t, g) && SameMembers(run[m].Groups(t)[g], run[n].Groups(t)[g])
  {
    if m < n {
      NoGrowthFollows(run, steps, m, n - 1, t, g);
      assert StepOk(run, steps, n - 1);
      MembersMove(run[n - 1], steps[n - 1], t, g);
    }
  }

  /** Steps m to n subscribe nobody to group g of topic t. */
  ghost predicate Stable(steps: seq<Step>, m: nat, n: nat, t: Topic, g: GroupName)
    requires n <= |steps|
  {
    forall i :: m <= i < n ==> !(steps[i].Subscribe? && steps[i].t == t && steps[i].g == g)
  }

  /** While nobody subscribes to a group, its p picks between any two moments give each of its k
      subscriptions p/k payloads, rounded down or up, sent or on their way, unless the cursor wraps
      at 2^64 in between and k does not divide that. */
  lemma RoundRobinIsEven(run: seq<Bus>, steps: seq<Step>, m: nat, n: nat, t: Topic, g: GroupName, r: nat)
    requires IsRun(run, steps) && m <= n < |run| && Stable(steps, m, n, t, g)
    requires run[m].Has(t, g) && r < |run[m].Groups(t)[g].subs|
    ensures run[n].Has(t, g) && run[m].Groups(t)[g].picks <= run[n].Groups(t)[g].picks
    ensures var was, now := run[m].Groups(t)[g], run[n].Groups(t)[g];
      var i, k, p := was.subs[r], |was.subs|, |now.picks| - |was.picks|;
      && i in run[m].subs && i in run[n].subs && Due(run[m], i) <= Due(run[n], i)
      && (Straight(was.start + |was.picks|, p, k) ==> Even(p, k, Due(run[n], i) - Due(run[m], i)))
  {
    EveryReachableState(run, steps, m);
    EveryReachableState(run, steps, n);
    NoGrowthFollows(run, steps, m, n, t, g);
    DueIsPicked(run[m], t, g, r);
    DueIsPicked(run[n], t, g, r);
    SharesBetween(run[m].Groups(t)[g], run[n].Groups(t)[g], r);
  }

  lemma SharesBetween(was: Group, now: Group, r: nat)
    requires CursorOk(now) && SameMembers(was, now) && r < |now.subs|
    ensures var k, p := |now.subs|, |now.picks| - |was.picks|;
      && Times(was.picks, r) <= Times(now.picks, r)
      && (Straight(was.start + |was.picks|, p, k) ==> Even(p, k, Times(now.picks, r) - Times(was.picks, r)))
  {
    var a, p := |was.picks|, |now.picks| - |was.picks|;
    TimesConcat(was.picks, now.picks, r);
    if Straight(was.start + a, p, |now.subs|) {
      EvenlySpread(now, a, p, r);
      assert now.picks[a..a + p] == now.picks[a..];
    }
  }

  /** With no Publish under way at either moment, these are the payloads sent. */
  lemma PayloadsAreEven(run: seq<Bus>, steps: seq<Step>, m: nat, n: nat, t: Topic, g: GroupName, r: nat)
    requires IsRun(run, steps) && m <= n < |run| && Stable(steps, m, n, t, g)
    requires run[m].Has(t, g) && r < |run[m].Groups(t)[g].subs|
    requires run[m].active == map[] && run[n].active == map[]
    ensures run[n].Has(t, g) && run[m].Groups(t)[g].picks <= run[n].Groups(t)[g].picks
    ensures var was, now := run[m].Groups(t)[g], run[n].Groups(t)[g];
      var i, k, p := was.subs[r], |was.subs|, |now.picks| - |was.picks|;
      && i in run[m].subs && i in run[n].subs && |run[m].subs[i].sent| <= |run[n].subs[i].sent|
      && (Straight(was.start + |was.picks|, p, k) ==> Even(p, k, |run[n].subs[i].sent| - |run[m].subs[i].sent|))
  {
    RoundRobinIsEven(run, steps, m, n, t, g, r);
    DueIsSent(run[m], run[m].Groups(t)[g].subs[r]);
    DueIsSent(run[n], run[m].Groups(t)[g].subs[r]);
  }
}
