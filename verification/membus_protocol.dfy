/**
 The in-memory event bus of internal/infra/eventbus/memory.go under every interleaving of
 publishers, consumers, Subscribe and Close.  The read lock of Publish is modelled by the publishers
 in progress: Subscribe and Close, which take the write lock, need there to be none.
 */
module MembusProtocol {

  type Topic = string
  type GroupName = string
  type SubId = int
  type PubId = int
  type Payload = string

  const BUFFER := 1024
  const WORD := 0x1_0000_0000_0000_0000   // 2^64, where the round-robin cursor wraps

  /** A payload remembers which Publish call it came from. */
  datatype Item = Item(pub: PubId, payload: Payload)

  datatype Consumer = Waiting | Filling(batch: seq<Item>) | Handling(batch: seq<Item>) | Exited {
    function Held(): seq<Item> {
      match this
      case Filling(batch) => batch
      case Handling(batch) => batch
      case _ => []
    }
  }

  /** One subscription: its channel, its consumer goroutine, and what was sent and handled so far. */
  datatype Sub = Sub(
    topic: Topic, group: GroupName, batchSize: nat,
    ch: seq<Item>, closed: bool, consumer: Consumer,
    sent: seq<Item>, handled: seq<Item>)

  /** Since the group last got a subscription, when the cursor stood at `start` and the subscriptions
      had been sent `before` payloads, `picks` lists the indexes chosen. */
  datatype Group = Group(subs: seq<SubId>, next: nat, start: nat, picks: seq<nat>, before: seq<nat>)

  /** Where a Publish call has come between two groups, or within one. */
  datatype At = Between | Chosen(g: GroupName, sub: SubId) | Reserved(g: GroupName, sub: SubId)

  datatype Publisher = Publisher(topic: Topic, payload: Payload, groups: set<GroupName>, todo: set<GroupName>, at: At)

  datatype Bus = Bus(
    topics: map<Topic, map<GroupName, Group>>,
    subs: map<SubId, Sub>,
    closed: bool,
    inflight: int,
    active: map<PubId, Publisher>,
    accepted: map<PubId, Publisher>,
    refused: set<PubId>)
  {
    function Groups(t: Topic): map<GroupName, Group> {
      if t in topics then topics[t] else map[]
    }

    function SentTo(ids: seq<SubId>): seq<nat> {
      seq(|ids|, j requires 0 <= j < |ids| => if ids[j] in subs then |subs[ids[j]].sent| else 0)
    }

    predicate Has(t: Topic, g: GroupName) {
      g in Groups(t)
    }

    function WithGroup(t: Topic, g: GroupName, group: Group): (r: Bus)
      ensures forall u :: r.Groups(u) == if u == t then Groups(t)[g := group] else Groups(u)
    {
      this.(topics := topics[t := Groups(t)[g := group]])
    }
  }

  function Init(): Bus {
    Bus(map[], map[], false, 0, map[], map[], {})
  }

  datatype Step =
    | Subscribe(t: Topic, g: GroupName, batchSize: nat, sub: SubId)
    | PublishRefused(p: PubId)
    | PublishBegin(p: PubId, t: Topic, payload: Payload)
    | Choose(p: PubId, g: GroupName)    // g.next.Add(1)
    | Reserve(p: PubId)                 // inflight.Add(1)
    | Send(p: PubId)                    // the channel send, once there is room
    | PublishEnd(p: PubId)
    | Receive(s: SubId)                 // the consumer takes its batch's first payload
    | Fill(s: SubId)                    // fillBatch takes another
    | Flush(s: SubId)                   // the batch is full, Linger expired, or the channel closed
    | Handled(s: SubId)                 // the handler returned; inflight.Add(-len(batch))
    | Exit(s: SubId)                    // the consumer saw its closed channel empty
    | Close

  ghost predicate Enabled(b: Bus, step: Step) {
    match step
    case Subscribe(_, _, batchSize, sub) =>
      b.active == map[] && !b.closed && sub !in b.subs && batchSize >= 1
    case PublishRefused(p) => b.closed && p !in b.active && p !in b.accepted && p !in b.refused
    case PublishBegin(p, _, _) => !b.closed && p !in b.active && p !in b.accepted && p !in b.refused
    case Choose(p, g) =>
      && p in b.active && b.active[p].at.Between? && g in b.active[p].todo
      && b.Has(b.active[p].topic, g) && b.Groups(b.active[p].topic)[g].subs != []
    case Reserve(p) => p in b.active && b.active[p].at.Chosen?
    case Send(p) =>
      && p in b.active && b.active[p].at.Reserved? && b.active[p].at.sub in b.subs
      && |b.subs[b.active[p].at.sub].ch| < BUFFER
    case PublishEnd(p) => p in b.active && b.active[p].at.Between? && b.active[p].todo == {}
    case Receive(s) => s in b.subs && b.subs[s].consumer.Waiting? && b.subs[s].ch != []
    case Fill(s) =>
      && s in b.subs && b.subs[s].consumer.Filling? && b.subs[s].ch != []
      && |b.subs[s].consumer.batch| < b.subs[s].batchSize
    case Flush(s) => s in b.subs && b.subs[s].consumer.Filling?
    case Handled(s) => s in b.subs && b.subs[s].consumer.Handling?
    case Exit(s) => s in b.subs && b.subs[s].consumer.Waiting? && b.subs[s].closed && b.subs[s].ch == []
    case Close => b.active == map[] && !b.closed
  }

  const NO_GROUP := Group([], 0, 0, [], [])

  function Grow(g: Group, sub: SubId, sent: seq<nat>): Group {
    Group(g.subs + [sub], g.next, g.next, [], sent)
  }

  function Advance(g: Group, i: nat): Group {
    g.(next := (g.next + 1) % WORD, picks := g.picks + [i])
  }

  ghost function Apply(b: Bus, step: Step): Bus
    requires Enabled(b, step)
  {
    match step
    case Subscribe(t, g, batchSize, sub) =>
      var groups := b.Groups(t);
      var was := if g in groups then groups[g] else NO_GROUP;
      b.WithGroup(t, g, Grow(was, sub, b.SentTo(was.subs + [sub]))).(
         subs := b.subs[sub := Sub(t, g, batchSize, [], false, Waiting, [], [])])
    case PublishRefused(p) => b.(refused := b.refused + {p})
    case PublishBegin(p, t, payload) =>
      var groups := b.Groups(t).Keys;
      b.(active := b.active[p := Publisher(t, payload, groups, groups, Between)])
    case Choose(p, g) =>
      var pub := b.active[p];
      var groups := b.Groups(pub.topic);
      var i := groups[g].next % |groups[g].subs|;
      b.WithGroup(pub.topic, g, Advance(groups[g], i)).(
         active := b.active[p := pub.(at := Chosen(g, groups[g].subs[i]))])
    case Reserve(p) =>
      var pub := b.active[p];
      b.(inflight := b.inflight + 1, active := b.active[p := pub.(at := Reserved(pub.at.g, pub.at.sub))])
    case Send(p) =>
      var pub := b.active[p];
      var item := Item(p, pub.payload);
      var s := b.subs[pub.at.sub];
      b.(subs := b.subs[pub.at.sub := s.(ch := s.ch + [item], sent := s.sent + [item])],
         active := b.active[p := pub.(todo := pub.todo - {pub.at.g}, at := Between)])
    case PublishEnd(p) => b.(active := b.active - {p}, accepted := b.accepted[p := b.active[p]])
    case Receive(i) =>
      var s := b.subs[i];
      b.(subs := b.subs[i := s.(ch := s.ch[1..], consumer := Filling([s.ch[0]]))])
    case Fill(i) =>
      var s := b.subs[i];
      b.(subs := b.subs[i := s.(ch := s.ch[1..], consumer := Filling(s.consumer.batch + [s.ch[0]]))])
    case Flush(i) => b.(subs := b.subs[i := b.subs[i].(consumer := Handling(b.subs[i].consumer.batch))])
    case Handled(i) =>
      var s := b.subs[i];
      b.(subs := b.subs[i := s.(handled := s.handled + s.consumer.batch, consumer := Waiting)],
         inflight := b.inflight - |s.consumer.batch|)
    case Exit(i) => b.(subs := b.subs[i := b.subs[i].(consumer := Exited)])
    case Close =>
      b.(closed := true, subs := map i | i in b.subs :: b.subs[i].(closed := true))
  }
}
