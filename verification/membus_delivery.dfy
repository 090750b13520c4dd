/** Every accepted Publish reaches exactly one subscription of every group of its topic, once; a
    closed bus has handled everything it accepted. */
module MembusDelivery {
  import opened Wrappers
  import opened MembusProtocol

  /** The Publish call p, in progress or accepted. */
  function Call(b: Bus, p: PubId): Option<Publisher> {
    if p in b.active then Some(b.active[p])
    else if p in b.accepted then Some(b.accepted[p])
    else None
  }

  predicate InGroup(b: Bus, i: SubId, t: Topic, g: GroupName) {
    i in b.subs && b.subs[i].topic == t && b.subs[i].group == g
  }

  ghost predicate GroupOk(b: Bus, t: Topic, g: GroupName, group: Group) {
    group.subs != [] && forall k :: 0 <= k < |group.subs| ==> InGroup(b, group.subs[k], t, g)
  }

  /** A group has a subscription and all of them are its own; a Publish call works through the groups
      its topic had when it began. */
  ghost predicate TopicsOk(b: Bus) {
    && (forall t, g :: b.Has(t, g) ==> GroupOk(b, t, g, b.Groups(t)[g]))
    && (forall p :: p in b.active ==>
          var pub := b.active[p];
          && pub.groups == b.Groups(pub.topic).Keys && pub.todo <= pub.groups
          && (!pub.at.Between? ==> pub.at.g in pub.todo && InGroup(b, pub.at.sub, pub.topic, pub.at.g)))
  }

  /** Call p is done with group g. */
  predicate Served(b: Bus, p: PubId, g: GroupName) {
    Call(b, p).Some? && g in Call(b, p).value.groups && g !in Call(b, p).value.todo
  }

  ghost predicate Distinct(s: seq<Item>) {
    forall m, n :: 0 <= m < n < |s| ==> s[m].pub != s[n].pub
  }

  ghost predicate ItemOk(b: Bus, i: SubId, x: Item)
    requires i in b.subs
  {
    && Served(b, x.pub, b.subs[i].group)
    && Call(b, x.pub).value.topic == b.subs[i].topic && Call(b, x.pub).value.payload == x.payload
  }

  ghost predicate Reached(b: Bus, p: PubId, g: GroupName)
    requires Call(b, p).Some?
  {
    var pub := Call(b, p).value;
    exists i :: InGroup(b, i, pub.topic, g) && Item(p, pub.payload) in b.subs[i].sent
  }

  ghost predicate DeliveredOk(b: Bus) {
    && (forall i, x :: i in b.subs && x in b.subs[i].sent ==> ItemOk(b, i, x))
    && (forall i :: i in b.subs ==> Distinct(b.subs[i].sent))
    && (forall i, j, x, y :: i in b.subs && j in b.subs && x in b.subs[i].sent && y in b.subs[j].sent ==>
          b.subs[i].topic == b.subs[j].topic && b.subs[i].group == b.subs[j].group && x.pub == y.pub ==> i == j)
    && (forall p, g :: Served(b, p, g) ==> Reached(b, p, g))
    && (forall p :: p in b.refused ==> Call(b, p).None?)
    && (forall p :: p in b.accepted ==> b.accepted[p].todo == {} && p !in b.active)
  }

  /** Subscriptions keep their topic and group. */
  ghost predicate SubsStay(b: Bus, q: Bus) {
    forall i :: i in b.subs ==> InGroup(q, i, b.subs[i].topic, b.subs[i].group)
  }

  lemma SubsStayPut(b: Bus, step: Step)
    requires Enabled(b, step)
    ensures SubsStay(b, Apply(b, step))
  {
  }

  /** A group keeps its subscriptions, except that Subscribe appends one. */
  ghost predicate GroupsMoved(b: Bus, q: Bus, step: Step) {
    && (forall t, g :: q.Has(t, g) <==> b.Has(t, g) || (step.Subscribe? && step.t == t && step.g == g))
    && (forall t, g :: b.Has(t, g) && q.Has(t, g) && !(step.Subscribe? && step.t == t && step.g == g) ==>
          q.Groups(t)[g].subs == b.Groups(t)[g].subs)
    && (step.Subscribe? && q.Has(step.t, step.g) ==>
          q.Groups(step.t)[step.g].subs ==
            (if b.Has(step.t, step.g) then b.Groups(step.t)[step.g].subs else []) + [step.sub])
  }

  lemma GroupsMove(b: Bus, step: Step)
    requires Enabled(b, step)
    ensures GroupsMoved(b, Apply(b, step), step)
  {
    var q := Apply(b, step);
    match step
    case Subscribe(t, g, _, sub) => SubscribeMoves(b, step);
    case Choose(p, g) => ChooseMoves(b, step);
    case _ => QuietGroups(b, step);
  }

  lemma QuietGroups(b: Bus, step: Step)
    requires Enabled(b, step) && !step.Subscribe? && !step.Choose?
    ensures Apply(b, step).topics == b.topics && GroupsMoved(b, Apply(b, step), step)
  {
    assert forall u :: Apply(b, step).Groups(u) == b.Groups(u);
  }

  lemma SubscribeMoves(b: Bus, step: Step)
    requires Enabled(b, step) && step.Subscribe?
    ensures GroupsMoved(b, Apply(b, step), step)
  {
    var q := Apply(b, step);
    var was := if step.g in b.Groups(step.t) then b.Groups(step.t)[step.g] else NO_GROUP;
    var group := Grow(was, step.sub, b.SentTo(was.subs + [step.sub]));
    assert forall u :: q.Groups(u) == if u == step.t then b.Groups(u)[step.g := group] else b.Groups(u);
  }

  lemma ChooseMoves(b: Bus, step: Step)
    requires Enabled(b, step) && step.Choose?
    ensures GroupsMoved(b, Apply(b, step), step)
  {
    var q := Apply(b, step);
    var t := b.active[step.p].topic;
    var was := b.Groups(t)[step.g];
    var group := Advance(was, was.next % |was.subs|);
    assert forall u :: q.Groups(u) == if u == t then b.Groups(u)[step.g := group] else b.Groups(u);
  }

  /** A Publish call keeps its topic, payload and groups, and is done with a group by sending to the
      subscription it chose there. */
  ghost predicate CallsMoved(b: Bus, q: Bus, step: Step) {
    && (step.Subscribe? ==> b.active == map[])
    && (forall p :: p in q.active ==>
          var now := q.active[p];
          if p in b.active then
            var was := b.active[p];
            && now.topic == was.topic && now.payload == was.payload && now.groups == was.groups
            && now.todo == (if step.Send? && step.p == p && was.at.Reserved? then was.todo - {was.at.g} else was.todo)
            && (!now.at.Between? ==>
                  if was.at.Between? then
                    && now.at.g in was.todo && b.Has(was.topic, now.at.g)
                    && now.at.sub in b.Groups(was.topic)[now.at.g].subs
                  else now.at.g == was.at.g && now.at.sub == was.at.sub && !(step.Send? && step.p == p))
          else now.groups == now.todo == b.Groups(now.topic).Keys && now.at.Between? && !step.Subscribe?)
  }

  lemma CallsMove(b: Bus, step: Step)
    requires Enabled(b, step)
    ensures CallsMoved(b, Apply(b, step), step)
  {
  }

  lemma TopicsFollow(b: Bus, q: Bus, step: Step)
    requires TopicsOk(b) && SubsStay(b, q) && GroupsMoved(b, q, step) && CallsMoved(b, q, step)
    requires step.Subscribe? ==> InGroup(q, step.sub, step.t, step.g)
    ensures TopicsOk(q)
  {
    forall t, g | q.Has(t, g) ensures GroupOk(q, t, g, q.Groups(t)[g]) {
      if b.Has(t, g) {
        assert GroupOk(b, t, g, b.Groups(t)[g]);
      }
    }
    forall p | p in q.active
      ensures var pub := q.active[p];
        && pub.groups == q.Groups(pub.topic).Keys && pub.todo <= pub.groups
        && (!pub.at.Between? ==> pub.at.g in pub.todo && InGroup(q, pub.at.sub, pub.topic, pub.at.g))
    {
      var pub := q.active[p];
      assert forall g :: g in q.Groups(pub.topic) <==> q.Has(pub.topic, g);
      assert forall g :: g in b.Groups(pub.topic) <==> b.Has(pub.topic, g);
      assert q.Groups(pub.topic).Keys == b.Groups(pub.topic).Keys;
      if p in b.active && !pub.at.Between? && b.active[p].at.Between? {
        assert GroupOk(b, pub.topic, pub.at.g, b.Groups(pub.topic)[pub.at.g]);
      }
    }
  }

  lemma TopicsKept(b: Bus, step: Step)
    requires Enabled(b, step) && TopicsOk(b)
    ensures TopicsOk(Apply(b, step))
  {
    SubsStayPut(b, step);
    GroupsMove(b, step);
    CallsMove(b, step);
    TopicsFollow(b, Apply(b, step), step);
  }

  /** Calls are never forgotten; a new one has everything still to do. */
  ghost predicate CallsKnown(b: Bus, q: Bus, step: Step) {
    && (forall p :: Call(b, p).Some? ==>
          var was := Call(b, p).value;
          && Call(q, p).Some?
          && Call(q, p).value.topic == was.topic && Call(q, p).value.payload == was.payload
          && Call(q, p).value.groups == was.groups
          && Call(q, p).value.todo ==
             (if step.Send? && step.p == p && was.at.Reserved? then was.todo - {was.at.g} else was.todo))
    && (forall p :: Call(b, p).None? && Call(q, p).Some? ==>
          step.PublishBegin? && step.p == p && Call(q, p).value.todo == Call(q, p).value.groups)
    && (forall p :: p in q.refused ==> p in b.refused || (step.PublishRefused? && step.p == p && Call(b, p).None?))
    && (step.PublishBegin? ==> step.p !in b.refused)
    && (forall p :: p in q.accepted ==> q.accepted[p].todo == {} && p !in q.active)
  }

  lemma CallStays(b: Bus, step: Step, p: PubId)
    requires Enabled(b, step) && Call(b, p).Some?
    requires p in b.accepted ==> b.accepted[p].todo == {} && p !in b.active
    ensures var was, q := Call(b, p).value, Apply(b, step);
      && Call(q, p).Some?
      && Call(q, p).value.topic == was.topic && Call(q, p).value.payload == was.payload
      && Call(q, p).value.groups == was.groups
      && Call(q, p).value.todo ==
         (if step.Send? && step.p == p && was.at.Reserved? then was.todo - {was.at.g} else was.todo)
  {
  }

  lemma CallsAreKnown(b: Bus, step: Step)
    requires Enabled(b, step) && forall p :: p in b.accepted ==> b.accepted[p].todo == {} && p !in b.active
    ensures CallsKnown(b, Apply(b, step), step)
  {
    var q := Apply(b, step);
    forall p | Call(b, p).Some? ensures
      var was := Call(b, p).value;
      && Call(q, p).Some?
      && Call(q, p).value.topic == was.topic && Call(q, p).value.payload == was.payload
      && Call(q, p).value.groups == was.groups
      && Call(q, p).value.todo ==
         (if step.Send? && step.p == p && was.at.Reserved? then was.todo - {was.at.g} else was.todo)
    {
      CallStays(b, step, p);
    }
  }

  /** Only Send adds to what was sent to a subscription. */
  ghost predicate SentMoved(b: Bus, q: Bus, step: Step) {
    && (forall i :: i in b.subs ==> i in q.subs)
    && (step.Send? ==> step.p in b.active && b.active[step.p].at.Reserved?)
    && (forall i :: i in q.subs ==>
          q.subs[i].sent ==
            (if i in b.subs then b.subs[i].sent else []) +
            (if step.Send? && b.active[step.p].at.sub == i then [Item(step.p, b.active[step.p].payload)] else []))
  }

  lemma SentMoves(b: Bus, step: Step)
    requires Enabled(b, step)
    ensures SentMoved(b, Apply(b, step), step)
  {
  }

  lemma QuietItems(b: Bus, q: Bus, step: Step, i: SubId, x: Item)
    requires DeliveredOk(b) && SubsStay(b, q) && CallsKnown(b, q, step) && SentMoved(b, q, step) && !step.Send?
    requires i in q.subs && x in q.subs[i].sent
    ensures i in b.subs && x in b.subs[i].sent && ItemOk(q, i, x)
  {
    assert i in b.subs && x in b.subs[i].sent;
    assert ItemOk(b, i, x);
  }

  lemma QuietReached(b: Bus, q: Bus, step: Step, p: PubId, g: GroupName)
    requires DeliveredOk(b) && SubsStay(b, q) && CallsKnown(b, q, step) && SentMoved(b, q, step) && !step.Send?
    requires Served(q, p, g)
    ensures Reached(q, p, g)
  {
    assert Served(b, p, g);
    var pub := Call(b, p).value;
    var i :| InGroup(b, i, pub.topic, g) && Item(p, pub.payload) in b.subs[i].sent;
    assert InGroup(q, i, pub.topic, g);
  }

  lemma DeliveredQuiet(b: Bus, q: Bus, step: Step)
    requires DeliveredOk(b) && SubsStay(b, q) && CallsKnown(b, q, step) && SentMoved(b, q, step) && !step.Send?
    ensures DeliveredOk(q)
  {
    forall i, x | i in q.subs && x in q.subs[i].sent ensures i in b.subs && x in b.subs[i].sent && ItemOk(q, i, x) {
      QuietItems(b, q, step, i, x);
    }
    forall i | i in q.subs ensures q.subs[i].sent == if i in b.subs then b.subs[i].sent else [] {
    }
    forall p, g | Served(q, p, g) ensures Reached(q, p, g) {
      QuietReached(b, q, step, p, g);
    }
  }

  /** What sending changes, seen from outside: call p is done with group at.g, whose subscription
      at.sub got its item. */
  ghost predicate Sent(b: Bus, q: Bus, p: PubId, at: At, item: Item) {
    && p in b.active && b.active[p].at == at && at.Reserved? && item == Item(p, b.active[p].payload)
    && SubsStay(b, q) && CallsKnown(b, q, Send(p)) && SentMoved(b, q, Send(p))
    && InGroup(b, at.sub, b.active[p].topic, at.g) && at.g in b.active[p].todo && at.g in b.active[p].groups
    && q.subs.Keys == b.subs.Keys
  }

  lemma SentItems(b: Bus, q: Bus, p: PubId, at: At, item: Item, i: SubId, x: Item)
    requires DeliveredOk(b) && Sent(b, q, p, at, item) && i in q.subs && x in q.subs[i].sent
    ensures ItemOk(q, i, x)
    ensures x in b.subs[i].sent ==> ItemOk(b, i, x)
    ensures x !in b.subs[i].sent ==> x == item && i == at.sub
  {
    if x in b.subs[i].sent {
      assert ItemOk(b, i, x);
    }
  }

  lemma DistinctSnoc(s: seq<Item>, x: Item)
    requires Distinct(s) && forall y :: y in s ==> y.pub != x.pub
    ensures Distinct(s + [x])
  {
  }

  lemma SentDistinct(b: Bus, q: Bus, p: PubId, at: At, item: Item, i: SubId)
    requires DeliveredOk(b) && Sent(b, q, p, at, item) && i in q.subs
    ensures Distinct(q.subs[i].sent)
  {
    var was := b.subs[i].sent;
    if i == at.sub {
      forall y | y in was ensures y.pub != p {
        assert ItemOk(b, i, y);
      }
      DistinctSnoc(was, item);
    }
  }

  lemma SentOnce(b: Bus, q: Bus, p: PubId, at: At, item: Item, i: SubId, j: SubId, x: Item, y: Item)
    requires DeliveredOk(b) && Sent(b, q, p, at, item)
    requires i in q.subs && j in q.subs && x in q.subs[i].sent && y in q.subs[j].sent && x.pub == y.pub
    requires q.subs[i].topic == q.subs[j].topic && q.subs[i].group == q.subs[j].group
    ensures i == j
  {
    SentItems(b, q, p, at, item, i, x);
    SentItems(b, q, p, at, item, j, y);
    assert !Served(b, p, at.g);
  }

  lemma SentReaches(b: Bus, q: Bus, p: PubId, at: At, item: Item, c: PubId, g: GroupName)
    requires DeliveredOk(b) && Sent(b, q, p, at, item) && Served(q, c, g)
    ensures Reached(q, c, g)
  {
    if c == p && g == at.g {
      assert InGroup(q, at.sub, b.active[p].topic, g) && item in q.subs[at.sub].sent;
    } else {
      assert Served(b, c, g);
      var pub := Call(b, c).value;
      var i :| InGroup(b, i, pub.topic, g) && Item(c, pub.payload) in b.subs[i].sent;
      assert InGroup(q, i, pub.topic, g);
    }
  }

  lemma SentOnlyOnce(b: Bus, q: Bus, p: PubId, at: At, item: Item)
    requires DeliveredOk(b) && Sent(b, q, p, at, item)
    ensures forall i, j, x, y :: i in q.subs && j in q.subs && x in q.subs[i].sent && y in q.subs[j].sent ==>
              q.subs[i].topic == q.subs[j].topic && q.subs[i].group == q.subs[j].group && x.pub == y.pub ==> i == j
  {
    forall i, j, x, y | i in q.subs && j in q.subs && x in q.subs[i].sent && y in q.subs[j].sent
      && q.subs[i].topic == q.subs[j].topic && q.subs[i].group == q.subs[j].group && x.pub == y.pub
      ensures i == j
    {
      SentOnce(b, q, p, at, item, i, j, x, y);
    }
  }

  lemma SentReachesAll(b: Bus, q: Bus, p: PubId, at: At, item: Item)
    requires DeliveredOk(b) && Sent(b, q, p, at, item)
    ensures forall c, g :: Served(q, c, g) ==> Reached(q, c, g)
  {
    forall c, g | Served(q, c, g) ensures Reached(q, c, g) {
      SentReaches(b, q, p, at, item, c, g);
    }
  }

  lemma DeliveredSend(b: Bus, q: Bus, p: PubId, at: At, item: Item)
    requires DeliveredOk(b) && Sent(b, q, p, at, item)
    ensures DeliveredOk(q)
  {
    forall i, x | i in q.subs && x in q.subs[i].sent ensures ItemOk(q, i, x) {
      SentItems(b, q, p, at, item, i, x);
    }
    forall i | i in q.subs ensures Distinct(q.subs[i].sent) {
      SentDistinct(b, q, p, at, item, i);
    }
    SentOnlyOnce(b, q, p, at, item);
    SentReachesAll(b, q, p, at, item);
  }

  lemma DeliveredKept(b: Bus, step: Step)
    requires Enabled(b, step) && TopicsOk(b) && DeliveredOk(b)
    ensures DeliveredOk(Apply(b, step))
  {
    var q := Apply(b, step);
    SubsStayPut(b, step);
    CallsAreKnown(b, step);
    SentMoves(b, step);
    if step.Send? {
      var pub := b.active[step.p];
      DeliveredSend(b, q, step.p, pub.at, Item(step.p, pub.payload));
    } else {
      DeliveredQuiet(b, q, step);
    }
  }
}
