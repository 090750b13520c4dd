/**
 The bus of memory.go as code, one call at a time.  Its methods take protocol steps and nothing
 else, so everything proved in MembusGuarantees holds of it.  The records of the subscriptions, with
 their channels, are kept in a map.
 */
module MembusMemory {
  import opened Wrappers
  import opened MembusProtocol
  import opened MembusDelivery
  import opened MembusGuarantees
  import opened MembusCalls

  class Memory {
    var topics: map<Topic, map<GroupName, Group>>
    var subs: map<SubId, Sub>
    var closed: bool
    var inflight: int
    ghost var bus: Bus
    ghost var trace: seq<Step>

    /** Only protocol steps were taken since the bus was made. */
    ghost predicate Traced()
      reads this
    {
      Reaches(trace, bus)
    }

    ghost predicate Fields(b: Bus)
      reads this
    {
      topics == b.topics && subs == b.subs && closed == b.closed && inflight == b.inflight
    }

    /** The fields are those of the protocol's state. */
    ghost predicate Linked()
      reads this
    {
      Traced() && Fields(bus)
    }

    /** And no Publish is under way. */
    ghost predicate Valid()
      reads this
    {
      Linked() && bus.active == map[]
    }

    constructor ()
      ensures Valid() && bus == Init()
    {
      topics, subs, closed, inflight := map[], map[], false, 0;
      bus, trace := Init(), [];
      new;
      ReachesInit();
    }

    ghost method Take(step: Step)
      requires Traced() && Enabled(bus, step)
      modifies this`bus, this`trace
      ensures bus == Apply(old(bus), step) && Traced()
    {
      ReachesNext(trace, bus, step);
      bus, trace := Apply(bus, step), trace + [step];
    }

    method Subscribe(t: Topic, group: GroupName, batchSize: int, sub: SubId)
      requires Valid() && !closed && sub !in subs
      modifies this
      ensures Valid() && bus == Apply(old(bus), Step.Subscribe(t, group, if batchSize < 1 then 1 else batchSize, sub))
      ensures var size := if batchSize < 1 then 1 else batchSize;
        subs == old(subs)[sub := Sub(t, group, size, [], false, Waiting, [], [])]
      ensures t in topics && group in topics[t]
      ensures topics == old(topics)[t := if t in old(topics) then old(topics)[t][group := topics[t][group]]
                                         else map[group := topics[t][group]]]
      ensures var g := topics[t][group];
        if t in old(topics) && group in old(topics)[t]
        then g.subs == old(topics)[t][group].subs + [sub] && g.next == old(topics)[t][group].next
        else g.subs == [sub] && g.next == 0
    {
      var size := if batchSize < 1 then 1 else batchSize;
      Register(bus, t, group, size, sub);
      SubscribeIs(bus, t, group, size, sub);
      Take(Step.Subscribe(t, group, size, sub));
    }

    method Register(ghost b: Bus, t: Topic, group: GroupName, size: nat, sub: SubId)
      requires topics == b.topics && subs == b.subs
      modifies this`topics, this`subs
      ensures topics == b.WithGroup(t, group, Grown(b, t, group, sub)).topics
      ensures subs == b.subs[sub := Sub(t, group, size, [], false, Waiting, [], [])]
    {
      if t !in topics {
        topics := topics[t := map[]];
      }
      var groups := topics[t];
      if group !in groups {
        groups := groups[group := NO_GROUP];
      }
      var g := groups[group];
      var ids := g.subs + [sub];
      var known := subs;
      var before := seq(|ids|, j requires 0 <= j < |ids| => if ids[j] in known then |known[ids[j]].sent| else 0);
      assert before == b.SentTo(ids);
      var grown := Grow(g, sub, before);
      assert grown == Grown(b, t, group, sub);
      topics := topics[t := groups[group := grown]];
      subs := subs[sub := Sub(t, group, size, [], false, Waiting, [], [])];
      assert groups[group := grown] == b.Groups(t)[group := grown];
    }

    /** One turn of the loop in Publish. */
    method ServeGroup(ghost b: Bus, p: PubId, t: Topic, payload: Payload, name: GroupName)
      requires Fields(b) && CanServe(b, p, name) && b.active[p].topic == t && b.active[p].payload == payload
      modifies this`topics, this`subs, this`inflight
      ensures Fields(Serve(b, p, name))
    {
      var g := topics[t][name];
      var i := g.next % |g.subs|;
      topics := topics[t := topics[t][name := Advance(g, i)]];
      inflight := inflight + 1;
      var sub := subs[g.subs[i]];
      var item := Item(p, payload);
      subs := subs[g.subs[i] := sub.(ch := sub.ch + [item], sent := sub.sent + [item])];
    }

    method ServeNow(p: PubId, t: Topic, payload: Payload, name: GroupName)
      requires Linked() && CanServe(bus, p, name)
      requires bus.active[p].topic == t && bus.active[p].payload == payload
      modifies this`topics, this`subs, this`inflight, this`bus, this`trace
      ensures Linked() && bus == Serve(old(bus), p, name)
    {
      ServeGroup(bus, p, t, payload, name);
      Take(Choose(p, name));
      Take(Reserve(p));
      Take(Send(p));
    }

    /** The same after the consumer of the subscription whose turn it is has made room. */
    method ServeOne(p: PubId, t: Topic, payload: Payload, name: GroupName, timer: nat)
      requires Linked() && !closed && Enabled(bus, Choose(p, name)) && ServedSub(bus, p, name) in subs
      requires bus.active[p].topic == t && bus.active[p].payload == payload
      modifies this`topics, this`subs, this`inflight, this`bus, this`trace
      ensures Linked()
      ensures GroupServed(old(bus), bus, t, name, old(ServedSub(bus, p, name)), Item(p, payload))
      ensures Queued(old(subs[ServedSub(bus, p, name)]), subs[old(ServedSub(bus, p, name))], Item(p, payload))
      ensures var pub := old(bus).active[p];
        bus.active == old(bus).active[p := pub.(todo := pub.todo - {name}, at := Between)]
    {
      ghost var was := bus;
      var g := topics[t][name];
      MakeRoom(g.subs[g.next % |g.subs|], timer);
      ServedAfterRoom(was, bus, p, name);
      ServedQueues(was, bus, p, name);
      ServeNow(p, t, payload, name);
    }

    /** Publish; a send to a full channel waits for its consumer, whose timer is given. */
    method Publish(p: PubId, t: Topic, payload: Payload, timer: nat) returns (ok: bool)
      requires Valid() && p !in bus.accepted && p !in bus.refused
      modifies this
      ensures Valid() && ok == !old(closed)
      ensures ok ==> p in bus.accepted && bus.accepted[p].topic == t && bus.accepted[p].payload == payload
      ensures !ok ==> p in bus.refused && subs == old(subs) && topics == old(topics)
      ensures ok ==> Progress(old(bus), bus, t, {}, Item(p, payload))
    {
      if closed {
        Take(PublishRefused(p));
        return false;
      }
      Accept(p, t, payload, timer);
      return true;
    }

    method Accept(p: PubId, t: Topic, payload: Payload, timer: nat)
      requires Valid() && !closed && Enabled(bus, PublishBegin(p, t, payload))
      modifies this`topics, this`subs, this`inflight, this`bus, this`trace
      ensures Valid() && Progress(old(bus), bus, t, {}, Item(p, payload))
      ensures p in bus.accepted && bus.accepted[p].topic == t && bus.accepted[p].payload == payload
    {
      ghost var was := bus;
      BeginWorks(bus, p, t, payload);
      Take(PublishBegin(p, t, payload));
      ServeAll(was, p, t, payload, timer);
      EndWorks(was, bus, p, t, payload);
      Take(PublishEnd(p));
    }

    /** The loop of Publish: every group of the topic once, in whatever order. */
    method ServeAll(ghost was: Bus, p: PubId, t: Topic, payload: Payload, timer: nat)
      requires Linked() && !closed && Working(bus, p, t, payload, bus.Groups(t).Keys)
      requires Progress(was, bus, t, bus.Groups(t).Keys, Item(p, payload))
      modifies this`topics, this`subs, this`inflight, this`bus, this`trace
      ensures Linked() && Working(bus, p, t, payload, {})
      ensures Progress(was, bus, t, {}, Item(p, payload))
    {
      var todo := if t in topics then topics[t].Keys else {};
      while todo != {}
        invariant Linked() && Working(bus, p, t, payload, todo)
        invariant Progress(was, bus, t, todo, Item(p, payload))
      {
        var name := Pick(todo);
        ServeNext(was, p, t, payload, todo, name, timer);
        todo := todo - {name};
      }
    }

    method ServeNext(ghost was: Bus, p: PubId, t: Topic, payload: Payload, ghost todo: set<GroupName>, name: GroupName,
                     timer: nat)
      requires Linked() && !closed && Working(bus, p, t, payload, todo) && name in todo
      requires Progress(was, bus, t, todo, Item(p, payload))
      modifies this`topics, this`subs, this`inflight, this`bus, this`trace
      ensures Linked() && Working(bus, p, t, payload, todo - {name})
      ensures Progress(was, bus, t, todo - {name}, Item(p, payload))
    {
      ghost var b := bus;
      assert TopicsOk(b) by {
        ReachedOk(trace, bus);
      }
      CanChoose(b, p, t, payload, todo, name);
      ServeOne(p, t, payload, name, timer);
      WorkingFollows(b, bus, p, t, payload, todo, name, ServedSub(b, p, name));
      ProgressFollows(was, b, bus, t, todo, name, ServedSub(b, p, name), Item(p, payload));
    }

    // --------------------------------------------------------------------------- the consumers

    /** A consumer's step changes its own record only; finishing a batch lowers the counter. */
    method Move(s: SubId, ghost step: Step, now: Sub)
      requires Linked() && s in subs && Enabled(bus, step) && Consumes(step) && step.s == s
      requires now == Apply(bus, step).subs[s]
      modifies this`subs, this`inflight, this`bus, this`trace
      ensures Linked() && subs == old(subs)[s := now] && bus.active == old(bus.active)
    {
      if now.consumer.Waiting? {
        inflight := inflight - |subs[s].consumer.Held()|;
      }
      subs := subs[s := now];
      ConsumerStepIs(bus, step);
      Take(step);
    }

    method First(s: SubId)
      requires Linked() && s in subs && subs[s].consumer.Waiting? && subs[s].ch != []
      modifies this`subs, this`inflight, this`bus, this`trace
      ensures Linked() && subs == old(subs)[s := Filled(old(subs)[s], 1)] && bus.active == old(bus.active)
    {
      var sub := subs[s];
      assert [sub.ch[0]] == [] + sub.ch[..1];
      Move(s, Receive(s), sub.(ch := sub.ch[1..], consumer := Filling([sub.ch[0]])));
    }

    /** fillBatch: grows the batch from its first payload until it is full, there is nothing more in
        the channel, or the timer has fired, here when it has been looked at that often. */
    method FillBatch(s: SubId, timer: nat)
      requires Linked() && s in subs && subs[s].consumer.Filling? && |subs[s].consumer.batch| == 1
      modifies this`subs, this`inflight, this`bus, this`trace
      ensures Linked() && bus.active == old(bus.active)
      ensures subs == old(subs)[s := Filled(old(subs)[s], Extra(old(subs)[s], timer))]
      ensures var sub := subs[s];
        && sub.consumer.Filling? && |sub.ch| + |sub.consumer.batch| == |old(subs)[s].ch| + 1
        && sub.consumer.batch + sub.ch == old(subs)[s].consumer.batch + old(subs)[s].ch
        && (|sub.consumer.batch| >= sub.batchSize || sub.ch == [] || |sub.consumer.batch| == 1 + timer)
        && (|sub.consumer.batch| <= sub.batchSize || |sub.consumer.batch| == 1) && |sub.consumer.batch| <= 1 + timer
    {
      ghost var was := subs[s];
      FilledSize(was, 0);
      assert old(subs)[s := was] == old(subs);
      var looked := 0;
      while |subs[s].consumer.batch| < subs[s].batchSize && subs[s].ch != [] && looked < timer
        invariant Linked() && bus.active == old(bus.active) && looked <= Extra(was, timer)
        invariant s in subs && subs[s] == Filled(was, looked) && subs == old(subs)[s := subs[s]]
        decreases timer - looked
      {
        FilledSize(was, looked);
        More(s);
        FilledMore(was, looked, 1);
        looked := looked + 1;
      }
      FilledSize(was, looked);
    }

    method More(s: SubId)
      requires Linked() && s in subs && subs[s].consumer.Filling? && subs[s].ch != []
      requires |subs[s].consumer.batch| < subs[s].batchSize
      modifies this`subs, this`inflight, this`bus, this`trace
      ensures Linked() && subs == old(subs)[s := Filled(old(subs)[s], 1)] && bus.active == old(bus.active)
    {
      var sub := subs[s];
      assert [sub.ch[0]] == sub.ch[..1];
      Move(s, Fill(s), sub.(ch := sub.ch[1..], consumer := Filling(sub.consumer.batch + [sub.ch[0]])));
    }

    /** The batch in hand, if any, goes to the handler, whose error is only logged. */
    method Settle(s: SubId)
      requires Linked() && s in subs && !subs[s].consumer.Exited?
      modifies this`subs, this`inflight, this`bus, this`trace
      ensures Linked() && subs == old(subs)[s := Settled(old(subs)[s])] && bus.active == old(bus.active)
    {
      ghost var was := subs[s];
      assert old(subs)[s := was] == old(subs);
      if was.consumer.Waiting? {
        SettledWaiting(was);
      }
      if subs[s].consumer.Filling? {
        Move(s, Flush(s), subs[s].(consumer := Handling(subs[s].consumer.batch)));
      }
      if subs[s].consumer.Handling? {
        Finish(s);
      }
    }

    method Finish(s: SubId)
      requires Linked() && s in subs && subs[s].consumer.Handling?
      modifies this`subs, this`inflight, this`bus, this`trace
      ensures Linked() && subs == old(subs)[s := Settled(old(subs)[s])] && bus.active == old(bus.active)
    {
      var sub := subs[s];
      Move(s, Handled(s), sub.(handled := sub.handled + sub.consumer.batch, consumer := Waiting));
    }

    /** One turn of the loop in consume: the next n payloads of the queue are handled as one batch. */
    method Batch(s: SubId, timer: nat) returns (ghost n: nat)
      requires Linked() && s in subs && subs[s].consumer.Waiting? && subs[s].ch != []
      modifies this`subs, this`inflight, this`bus, this`trace
      ensures Linked() && bus.active == old(bus.active)
      ensures 1 <= n <= |old(subs)[s].ch| && subs == old(subs)[s := Through(old(subs)[s], n)]
      ensures n == 1 + Extra(Filled(old(subs)[s], 1), timer)
    {
      ghost var was := subs[s];
      First(s);
      FillBatch(s, timer);
      ghost var k := Extra(Filled(was, 1), timer);
      FilledMore(was, 1, k);
      assert [] + was.ch[..1 + k] == was.ch[..1 + k];
      Settle(s);
      n := 1 + k;
    }

    /** The consumer of a full channel finishes its batch and handles another. */
    method Relieve(s: SubId, timer: nat)
      requires Linked() && !closed && s in subs && |subs[s].ch| >= BUFFER
      modifies this`subs, this`inflight, this`bus, this`trace
      ensures Linked() && MadeRoom(old(bus), bus, s)
      ensures |subs[s].ch| < |old(subs)[s].ch|
      ensures subs[s].ch == old(subs)[s].ch[|old(subs)[s].ch| - |subs[s].ch|..]
    {
      assert !subs[s].consumer.Exited? by {
        ReachedOk(trace, bus);
      }
      Settle(s);
      ghost var n := Batch(s, timer);
    }

    /** While the channel of s is full its consumer works; everybody else waits. */
    method MakeRoom(s: SubId, timer: nat)
      requires Linked() && !closed && s in subs
      modifies this`subs, this`inflight, this`bus, this`trace
      ensures Linked() && MadeRoom(old(bus), bus, s) && |subs[s].ch| < BUFFER
      ensures Relieved(old(subs)[s], subs[s])
    {
      ghost var was := subs[s];
      assert old(subs)[s := was] == old(subs);
      while |subs[s].ch| >= BUFFER
        invariant Linked() && MadeRoom(old(bus), bus, s) && Relieved(was, subs[s])
        decreases |subs[s].ch|
      {
        ghost var b, now := bus, subs[s];
        Relieve(s, timer);
        MadeRoomMore(old(bus), b, bus, s);
        RelievedMore(was, now, subs[s], |now.ch| - |subs[s].ch|);
      }
    }

    method Batches(s: SubId, timer: nat)
      requires Linked() && s in subs && subs[s].consumer.Waiting?
      modifies this`subs, this`inflight, this`bus, this`trace
      ensures Linked() && bus.active == old(bus.active)
      ensures subs == old(subs)[s := Through(old(subs)[s], |old(subs)[s].ch|)]
    {
      ghost var was := subs[s];
      ghost var n: nat := 0;
      ThroughNothing(was);
      assert old(subs)[s := was] == old(subs);
      while subs[s].ch != []
        invariant Linked() && bus.active == old(bus.active)
        invariant n <= |was.ch| && subs == old(subs)[s := Through(was, n)]
        decreases |was.ch| - n
      {
        ghost var k := Batch(s, timer);
        ThroughMore(was, n, k);
        n := n + k;
      }
    }

    /** consume on a closed channel: the batch in hand is finished, the queue emptied batch by batch,
        in order, and the consumer exits. */
    method Drain(s: SubId, timer: nat)
      requires Linked() && s in subs && !subs[s].consumer.Exited? && subs[s].closed
      modifies this`subs, this`inflight, this`bus, this`trace
      ensures Linked() && subs == old(subs)[s := Emptied(old(subs)[s])] && bus.active == old(bus.active)
    {
      ghost var was := subs[s];
      Settle(s);
      Batches(s, timer);
      assert was.ch[..|was.ch|] == was.ch;
      Move(s, Exit(s), subs[s].(consumer := Exited));
    }

    /** Close, once no other call is under way: the channels are closed, the consumers finish what
        they have in hand, empty their channels and exit, and by then every payload ever sent has been
        handled, in order. */
    method Close(timer: nat)
      requires Valid()
      modifies this
      ensures Valid() && closed
      ensures old(closed) ==> bus == old(bus)
      ensures !old(closed) ==> Drained(bus) && inflight == 0
      ensures !old(closed) ==> subs.Keys == old(subs).Keys
      ensures !old(closed) ==> forall i :: i in subs ==> subs[i].handled == subs[i].sent == old(subs)[i].sent
    {
      if closed {
        return;
      }
      CloseChannels();
      ghost var was := subs;
      var rest := subs.Keys;
      while rest != {}
        invariant Valid() && closed && rest <= subs.Keys == was.Keys
        invariant forall i :: i in subs ==> subs[i] == if i in rest then was[i] else Emptied(was[i])
      {
        var s := Pick(rest);
        Drain(s, timer);
        rest := rest - {s};
      }
      assert Inv(bus) by {
        ReachedOk(trace, bus);
      }
      DrainedIsHandled(bus);
    }

    method CloseChannels()
      requires Valid() && !closed
      modifies this
      ensures Valid() && closed && subs.Keys == old(subs).Keys
      ensures forall i :: i in subs ==> subs[i] == old(subs)[i].(closed := true) && !subs[i].consumer.Exited?
    {
      assert forall i :: i in subs ==> !subs[i].consumer.Exited? by {
        ReachedOk(trace, bus);
      }
      CloseEach();
      closed := true;
      CloseIs(bus, subs);
      Take(Step.Close);
    }

    method CloseEach()
      modifies this`subs
      ensures subs.Keys == old(subs).Keys
      ensures forall i :: i in subs ==> subs[i] == old(subs)[i].(closed := true)
    {
      var rest := subs.Keys;
      while rest != {}
        invariant rest <= subs.Keys == old(subs).Keys
        invariant forall i :: i in subs ==> subs[i] == if i in rest then old(subs)[i] else old(subs)[i].(closed := true)
      {
        var s := Pick(rest);
        subs, rest := subs[s := subs[s].(closed := true)], rest - {s};
      }
    }
  }
}
