/** What the calls of the in-memory bus amount to in protocol steps, and what they leave. */
module MembusCalls {
  import opened MembusProtocol
  import opened MembusDelivery
  import opened MembusGuarantees

  /** A run of the protocol through these steps ends in b. */
  ghost predicate Reaches(steps: seq<Step>, b: Bus) {
    exists run :: IsRun(run, steps) && run[|steps|] == b
  }

  lemma ReachesInit()
    ensures Reaches([], Init())
  {
    assert IsRun([Init()], []);
  }

  lemma ReachesNext(steps: seq<Step>, b: Bus, step: Step)
    requires Reaches(steps, b) && Enabled(b, step)
    ensures Reaches(steps + [step], Apply(b, step))
  {
    var run :| IsRun(run, steps) && run[|steps|] == b;
    var longer, more := run + [Apply(b, step)], steps + [step];
    forall i | 0 <= i < |more| ensures StepOk(longer, more, i) {
      if i < |steps| {
        assert StepOk(run, steps, i);
      }
    }
    assert IsRun(longer, more);
  }

  lemma ReachedOk(steps: seq<Step>, b: Bus)
    requires Reaches(steps, b)
    ensures Inv(b)
  {
    var run :| IsRun(run, steps) && run[|steps|] == b;
    EveryReachableState(run, steps, |steps|);
  }

  /** The group with one more subscription. */
  function Grown(b: Bus, t: Topic, g: GroupName, sub: SubId): Group {
    var was := if g in b.Groups(t) then b.Groups(t)[g] else NO_GROUP;
    Grow(was, sub, b.SentTo(was.subs + [sub]))
  }

  lemma SubscribeIs(b: Bus, t: Topic, g: GroupName, size: nat, sub: SubId)
    requires Enabled(b, Subscribe(t, g, size, sub))
    ensures var q := Apply(b, Subscribe(t, g, size, sub));
      && q.topics == b.WithGroup(t, g, Grown(b, t, g, sub)).topics
      && q.subs == b.subs[sub := Sub(t, g, size, [], false, Waiting, [], [])]
      && q.closed == b.closed && q.inflight == b.inflight
  {
  }

  // ------------------------------------------------------------------------------------ Publish

  /** Publish call p deals with group g: it chooses, reserves and sends. */
  ghost predicate CanServe(b: Bus, p: PubId, g: GroupName) {
    Enabled(b, Choose(p, g)) && ServedSub(b, p, g) in b.subs && |b.subs[ServedSub(b, p, g)].ch| < BUFFER
  }

  ghost function ServedSub(b: Bus, p: PubId, g: GroupName): SubId
    requires Enabled(b, Choose(p, g))
  {
    var group := b.Groups(b.active[p].topic)[g];
    group.subs[group.next % |group.subs|]
  }

  ghost function Serve(b: Bus, p: PubId, g: GroupName): Bus
    requires CanServe(b, p, g)
  {
    Apply(Apply(Apply(b, Choose(p, g)), Reserve(p)), Send(p))
  }

  /** Subscription i is the one whose turn it was in group g. */
  ghost predicate TurnOf(was: Bus, t: Topic, g: GroupName, i: SubId) {
    && was.Has(t, g) && was.Groups(t)[g].subs != []
    && i == was.Groups(t)[g].subs[was.Groups(t)[g].next % |was.Groups(t)[g].subs|]
  }

  /** A channel with room takes the item at once, and its consumer is not waited for; of a full one
      only the oldest payloads went to the consumer first. */
  ghost predicate Queued(a: Sub, b: Sub, item: Item) {
    && (|a.ch| < BUFFER ==> b == a.(ch := a.ch + [item], sent := a.sent + [item]))
    && 1 <= |b.ch| <= |a.ch| + 1 && b.ch == a.ch[|a.ch| + 1 - |b.ch|..] + [item]
  }

  /** The consumer took the oldest payloads of a full channel; one with room was left alone. */
  ghost predicate Relieved(a: Sub, b: Sub) {
    && (|a.ch| < BUFFER ==> b == a)
    && |b.ch| <= |a.ch| && b.ch == a.ch[|a.ch| - |b.ch|..]
  }

  lemma RelievedMore(a: Sub, b: Sub, c: Sub, n: nat)
    requires Relieved(a, b) && |a.ch| >= BUFFER && n <= |b.ch| && c.ch == b.ch[n..]
    ensures Relieved(a, c)
  {
  }

  lemma QueuedAfter(a: Sub, b: Sub, c: Sub, item: Item)
    requires Relieved(a, b) && c == b.(ch := b.ch + [item], sent := b.sent + [item])
    ensures Queued(a, c, item)
  {
  }

  /** The subscription whose turn it was was sent the item, and the cursor moved on. */
  ghost predicate Turned(was: Bus, now: Bus, t: Topic, g: GroupName, item: Item) {
    && was.Has(t, g) && now.Has(t, g) && was.Groups(t)[g].subs != []
    && var h := was.Groups(t)[g];
    && var i := h.subs[h.next % |h.subs|];
    && now.Groups(t)[g] == Advance(h, h.next % |h.subs|)
    && i in was.subs && i in now.subs
    && now.subs[i].sent == was.subs[i].sent + [item]
    && Queued(was.subs[i], now.subs[i], item)
  }

  predicate SamePlace(a: Sub, b: Sub) {
    b.topic == a.topic && b.group == a.group && b.batchSize == a.batchSize && b.closed == a.closed
  }

  /** The groups of the topic still to do are as they were; in the others one subscription had its
      turn, and no other subscription was touched. */
  ghost predicate Progress(was: Bus, b: Bus, t: Topic, todo: set<GroupName>, item: Item) {
    && b.Groups(t).Keys == was.Groups(t).Keys && todo <= was.Groups(t).Keys
    && b.subs.Keys == was.subs.Keys
    && (forall i :: i in b.subs ==> SamePlace(was.subs[i], b.subs[i]))
    && (forall g :: g in todo ==> b.Groups(t)[g] == was.Groups(t)[g])
    && (forall i :: i in b.subs && b.subs[i].group in todo ==> b.subs[i] == was.subs[i])
    && (forall i :: i in b.subs && b.subs[i] != was.subs[i] ==> exists g :: g !in todo && TurnOf(was, t, g, i))
    && forall g :: was.Has(t, g) && g !in todo ==> Turned(was, b, t, g, item)
  }

  /** Publish call p of the topic's groups has come to the groups in todo. */
  ghost predicate Working(b: Bus, p: PubId, t: Topic, payload: Payload, todo: set<GroupName>) {
    && p in b.active && b.active[p] == Publisher(t, payload, b.Groups(t).Keys, todo, Between)
    && b.active == map[p := b.active[p]]
  }

  /** A Publish in its loop can choose in any group left; the bus is open and the chosen one is there. */
  lemma CanChoose(b: Bus, p: PubId, t: Topic, payload: Payload, todo: set<GroupName>, g: GroupName)
    requires TopicsOk(b) && Working(b, p, t, payload, todo) && g in todo
    ensures b.Has(t, g) && b.Groups(t)[g].subs != [] && Enabled(b, Choose(p, g)) && ServedSub(b, p, g) in b.subs
  {
    assert g in b.Groups(t) && GroupOk(b, t, g, b.Groups(t)[g]);
    assert InGroup(b, ServedSub(b, p, g), t, g);
  }

  lemma ServeIs(b: Bus, p: PubId, g: GroupName)
    requires CanServe(b, p, g)
    ensures var q, pub, i, t := Serve(b, p, g), b.active[p], ServedSub(b, p, g), b.active[p].topic;
      && q.active == b.active[p := pub.(todo := pub.todo - {g}, at := Between)]
      && (forall u :: q.Groups(u) ==
            if u == t then b.Groups(t)[g := Advance(b.Groups(t)[g], b.Groups(t)[g].next % |b.Groups(t)[g].subs|)]
            else b.Groups(u))
      && var sub, item := b.subs[i], Item(p, pub.payload);
      && q.subs == b.subs[i := sub.(ch := sub.ch + [item], sent := sub.sent + [item])]
  {
  }

  /** Between b and q group g was served: its subscription s was sent the item, and its consumer may
      have handled some of the queue to make room. */
  ghost predicate GroupServed(b: Bus, q: Bus, t: Topic, g: GroupName, s: SubId, item: Item) {
    && b.Has(t, g) && b.Groups(t)[g].subs != [] && TurnOf(b, t, g, s) && s in b.subs && s in q.subs
    && q.Groups(t) == b.Groups(t)[g := Advance(b.Groups(t)[g], b.Groups(t)[g].next % |b.Groups(t)[g].subs|)]
    && q.subs == b.subs[s := q.subs[s]]
    && SamePlace(b.subs[s], q.subs[s]) && q.subs[s].sent == b.subs[s].sent + [item]
  }

  /** Consumer steps change only their own subscription, and not what it was sent. */
  ghost predicate MadeRoom(b: Bus, q: Bus, s: SubId) {
    && s in b.subs && s in q.subs && q.subs == b.subs[s := q.subs[s]]
    && q.topics == b.topics && q.active == b.active
    && SamePlace(b.subs[s], q.subs[s]) && q.subs[s].sent == b.subs[s].sent
  }

  lemma MadeRoomMore(b: Bus, m: Bus, q: Bus, s: SubId)
    requires MadeRoom(b, m, s) && MadeRoom(m, q, s)
    ensures MadeRoom(b, q, s)
  {
  }

  lemma ServedAfterRoom(b: Bus, q: Bus, p: PubId, g: GroupName)
    requires Enabled(b, Choose(p, g)) && MadeRoom(b, q, ServedSub(b, p, g)) && CanServe(q, p, g)
    ensures GroupServed(b, Serve(q, p, g), b.active[p].topic, g, ServedSub(b, p, g), Item(p, b.active[p].payload))
    ensures Serve(q, p, g).active == b.active[p := b.active[p].(todo := b.active[p].todo - {g}, at := Between)]
  {
    assert forall u :: q.Groups(u) == b.Groups(u);
    ServeIs(q, p, g);
  }

  lemma ServedQueues(b: Bus, q: Bus, p: PubId, g: GroupName)
    requires Enabled(b, Choose(p, g)) && MadeRoom(b, q, ServedSub(b, p, g)) && CanServe(q, p, g)
    requires Relieved(b.subs[ServedSub(b, p, g)], q.subs[ServedSub(b, p, g)])
    ensures var s := ServedSub(b, p, g);
      s in Serve(q, p, g).subs && Queued(b.subs[s], Serve(q, p, g).subs[s], Item(p, b.active[p].payload))
  {
    var s := ServedSub(b, p, g);
    assert q.Groups(b.active[p].topic) == b.Groups(b.active[p].topic);
    ServeIs(q, p, g);
    QueuedAfter(b.subs[s], q.subs[s], Serve(q, p, g).subs[s], Item(p, b.active[p].payload));
  }

  lemma WorkingFollows(b: Bus, q: Bus, p: PubId, t: Topic, payload: Payload, todo: set<GroupName>, g: GroupName,
                       s: SubId)
    requires Working(b, p, t, payload, todo) && GroupServed(b, q, t, g, s, Item(p, payload))
    requires q.active == b.active[p := b.active[p].(todo := b.active[p].todo - {g}, at := Between)]
    ensures Working(q, p, t, payload, todo - {g})
  {
    assert q.Groups(t).Keys == b.Groups(t).Keys;
  }

  lemma ProgressFollows(was: Bus, b: Bus, q: Bus, t: Topic, todo: set<GroupName>, g: GroupName, s: SubId, item: Item)
    requires TopicsOk(b) && Progress(was, b, t, todo, item) && g in todo && GroupServed(b, q, t, g, s, item)
    requires Queued(b.subs[s], q.subs[s], item)
    ensures Progress(was, q, t, todo - {g}, item)
  {
    assert GroupOk(b, t, g, b.Groups(t)[g]);
    assert InGroup(b, s, t, g);
    assert TurnOf(was, t, g, s);
    forall h | was.Has(t, h) && h !in todo - {g} ensures Turned(was, q, t, h, item) {
      if h != g {
        OtherTurnStays(was, b, q, t, g, h, s, item);
      }
    }
  }

  lemma OtherTurnStays(was: Bus, b: Bus, q: Bus, t: Topic, g: GroupName, h: GroupName, s: SubId, item: Item)
    requires TopicsOk(b) && Turned(was, b, t, h, item) && h != g
    requires GroupServed(b, q, t, g, s, item) && InGroup(b, s, t, g)
    ensures Turned(was, q, t, h, item)
  {
    var w := was.Groups(t)[h];
    assert GroupOk(b, t, h, b.Groups(t)[h]);
    assert InGroup(b, w.subs[w.next % |w.subs|], t, h);
  }

  lemma BeginWorks(b: Bus, p: PubId, t: Topic, payload: Payload)
    requires b.active == map[] && Enabled(b, PublishBegin(p, t, payload))
    ensures var q := Apply(b, PublishBegin(p, t, payload));
      && q.topics == b.topics && q.subs == b.subs && q.closed == b.closed && q.inflight == b.inflight
      && Working(q, p, t, payload, q.Groups(t).Keys)
      && Progress(b, q, t, q.Groups(t).Keys, Item(p, payload))
  {
  }

  lemma EndWorks(was: Bus, b: Bus, p: PubId, t: Topic, payload: Payload)
    requires Working(b, p, t, payload, {}) && Progress(was, b, t, {}, Item(p, payload))
    ensures Enabled(b, PublishEnd(p))
    ensures var q := Apply(b, PublishEnd(p));
      && q.topics == b.topics && q.subs == b.subs && q.closed == b.closed && q.inflight == b.inflight
      && q.active == map[] && p in q.accepted && q.accepted[p].topic == t && q.accepted[p].payload == payload
      && Progress(was, q, t, {}, Item(p, payload))
  {
    var q := Apply(b, PublishEnd(p));
    forall g | was.Has(t, g) ensures Turned(was, q, t, g, Item(p, payload)) {
      assert Turned(was, b, t, g, Item(p, payload));
    }
  }

  // ------------------------------------------------------------------------------ the consumers

  function Min(a: nat, b: nat): nat {
    if a < b then a else b
  }

  lemma ConsumerStepIs(b: Bus, step: Step)
    requires Enabled(b, step) && Consumes(step)
    ensures var q := Apply(b, step);
      && q.subs == b.subs[step.s := q.subs[step.s]] && q.topics == b.topics && q.closed == b.closed
      && q.active == b.active
      && q.inflight == b.inflight - (if step.Handled? then |b.subs[step.s].consumer.Held()| else 0)
      && (q.subs[step.s].consumer.Waiting? <==> step.Handled?)
  {
  }

  /** How many payloads join the first one in a batch. */
  function Extra(s: Sub, timer: nat): nat {
    if s.batchSize == 0 then 0 else Min(timer, Min(s.batchSize - 1, |s.ch|))
  }

  /** The batch is filled until it is full, the channel is empty or the timer has fired, no less and
      no more. */
  lemma ExtraStops(s: Sub, timer: nat)
    requires s.batchSize >= 1
    ensures var n := Extra(s, timer);
      && n <= |s.ch| && 1 + n <= s.batchSize && n <= timer
      && (1 + n == s.batchSize || n == |s.ch| || n == timer)
  {
  }

  /** The subscription after n more payloads went from the channel into the batch. */
  function Filled(s: Sub, n: nat): Sub
    requires n <= |s.ch|
  {
    s.(ch := s.ch[n..], consumer := Filling(s.consumer.Held() + s.ch[..n]))
  }

  lemma FilledSize(s: Sub, n: nat)
    requires n <= |s.ch|
    ensures Filled(s, n).consumer.Filling?
    ensures |Filled(s, n).consumer.batch| == |s.consumer.Held()| + n && |Filled(s, n).ch| == |s.ch| - n
    ensures n == 0 && s.consumer.Filling? ==> Filled(s, n) == s
  {
    assert s.consumer.Held() + s.ch[..0] == s.consumer.Held();
  }

  lemma FilledMore(s: Sub, n: nat, k: nat)
    requires n + k <= |s.ch|
    ensures Filled(Filled(s, n), k) == Filled(s, n + k)
  {
    assert s.ch[..n + k] == s.ch[..n] + s.ch[n..][..k];
    assert s.consumer.Held() + s.ch[..n] + s.ch[n..][..k] == s.consumer.Held() + s.ch[..n + k];
  }

  /** The subscription after n payloads of its channel were handled. */
  function Through(s: Sub, n: nat): Sub
    requires n <= |s.ch|
  {
    s.(ch := s.ch[n..], handled := s.handled + s.ch[..n], consumer := Waiting)
  }

  lemma ThroughMore(s: Sub, n: nat, k: nat)
    requires n + k <= |s.ch|
    ensures Through(Through(s, n), k) == Through(s, n + k)
  {
    assert s.ch[..n + k] == s.ch[..n] + s.ch[n..][..k];
    assert s.handled + s.ch[..n] + s.ch[n..][..k] == s.handled + s.ch[..n + k];
  }

  lemma ThroughNothing(s: Sub)
    requires s.consumer.Waiting?
    ensures Through(s, 0) == s
  {
    assert s.handled + s.ch[..0] == s.handled;
  }

  /** The batch in hand is handled. */
  function Settled(s: Sub): Sub {
    s.(handled := s.handled + s.consumer.Held(), consumer := Waiting)
  }

  lemma SettledWaiting(s: Sub)
    requires s.consumer.Waiting?
    ensures Settled(s) == s
  {
    assert s.handled + [] == s.handled;
  }

  /** The batch in hand and then the whole queue are handled. */
  function Emptied(s: Sub): Sub {
    s.(handled := s.handled + s.consumer.Held() + s.ch, ch := [], consumer := Exited)
  }

  lemma CloseIs(b: Bus, subs: map<SubId, Sub>)
    requires b.active == map[] && !b.closed && subs.Keys == b.subs.Keys
    requires forall i :: i in subs ==> subs[i] == b.subs[i].(closed := true)
    ensures var q := Apply(b, Step.Close);
      q.subs == subs && q.closed && q.topics == b.topics && q.inflight == b.inflight && q.active == map[]
  {
    var q := Apply(b, Step.Close);
    assert q.subs.Keys == subs.Keys;
    assert forall i :: i in q.subs ==> q.subs[i] == subs[i];
  }
}
