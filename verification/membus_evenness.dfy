/** The picks of a group are the payloads its subscriptions get. */
module MembusEvenness {
  import opened MembusProtocol
  import opened MembusDelivery
  import opened MembusRoundRobin

  /** The Publish calls that have chosen subscription i and not yet sent to it. */
  ghost function Coming(b: Bus, i: SubId): set<PubId> {
    set p | p in b.active && !b.active[p].at.Between? && b.active[p].at.sub == i
  }

  /** What subscription r was sent since the group last grew, and what is coming to it, is how often
      it was picked. */
  ghost predicate Counted(b: Bus, g: Group, r: nat)
    requires r < |g.subs|
  {
    && |g.before| == |g.subs| && g.subs[r] in b.subs
    && |b.subs[g.subs[r]].sent| + |Coming(b, g.subs[r])| == g.before[r] + Times(g.picks, r)
  }

  ghost predicate GroupCounted(b: Bus, g: Group) {
    && |g.before| == |g.subs|
    && (forall r, s :: 0 <= r < s < |g.subs| ==> g.subs[r] != g.subs[s])
    && forall r :: 0 <= r < |g.subs| ==> Counted(b, g, r)
  }

  ghost predicate CountsOk(b: Bus) {
    forall t, g :: b.Has(t, g) ==> GroupCounted(b, b.Groups(t)[g])
  }

  /** How many payloads subscription i is owed or has got. */
  ghost function Due(b: Bus, i: SubId): nat
    requires i in b.subs
  {
    |b.subs[i].sent| + |Coming(b, i)|
  }

  lemma DueIsPicked(b: Bus, t: Topic, g: GroupName, r: nat)
    requires CountsOk(b) && b.Has(t, g) && r < |b.Groups(t)[g].subs|
    ensures var group := b.Groups(t)[g];
      && group.subs[r] in b.subs && |group.before| == |group.subs|
      && Due(b, group.subs[r]) == group.before[r] + Times(group.picks, r)
  {
    assert Counted(b, b.Groups(t)[g], r);
  }

  /** With no Publish under way nothing is on its way. */
  lemma DueIsSent(b: Bus, i: SubId)
    requires i in b.subs && b.active == map[]
    ensures Due(b, i) == |b.subs[i].sent|
  {
    assert Coming(b, i) == {};
  }

  lemma {:induction false} TimesConcat(a: seq<nat>, s: seq<nat>, r: nat)
    requires a <= s
    ensures Times(s, r) == Times(a, r) + Times(s[|a|..], r)
  {
    if |s| == |a| {
      assert s == a && s[|a|..] == [];
    } else {
      var n := |s| - 1;
      TimesConcat(a, s[..n], r);
      assert s[..n][|a|..] == s[|a|..][..n - |a|];
    }
  }

  /** A choice adds one to what its subscription is due; sending does not change it. */
  lemma DueMoves(b: Bus, step: Step, i: SubId)
    requires Enabled(b, step) && TopicsOk(b) && i in b.subs
    ensures i in Apply(b, step).subs
    ensures Due(Apply(b, step), i) == Due(b, i) +
            if step.Choose? && Target(b, step) == i then 1 else 0
  {
    var q := Apply(b, step);
    match step
    case Choose(p, g) => ChoiceComes(b, step, i);
    case Send(p) => SendGoes(b, step, i);
    case Subscribe(_, _, _, _) => assert Coming(q, i) == Coming(b, i);
    case _ => assert Coming(q, i) == Coming(b, i) && q.subs[i].sent == b.subs[i].sent;
  }

  /** The subscription that the round robin chooses. */
  ghost function Target(b: Bus, step: Step): SubId
    requires Enabled(b, step) && step.Choose?
  {
    var group := b.Groups(b.active[step.p].topic)[step.g];
    group.subs[group.next % |group.subs|]
  }

  lemma ChoiceComes(b: Bus, step: Step, i: SubId)
    requires Enabled(b, step) && step.Choose? && i in b.subs
    ensures var q := Apply(b, step);
      && q.subs == b.subs
      && |Coming(q, i)| == |Coming(b, i)| + if Target(b, step) == i then 1 else 0
  {
    var q := Apply(b, step);
    assert step.p !in Coming(b, i);
    assert Coming(q, i) == Coming(b, i) + if Target(b, step) == i then {step.p} else {};
  }

  lemma SendGoes(b: Bus, step: Step, i: SubId)
    requires Enabled(b, step) && step.Send? && i in b.subs
    ensures Due(Apply(b, step), i) == Due(b, i)
  {
    var q := Apply(b, step);
    var here := b.active[step.p].at.sub == i;
    assert here <==> step.p in Coming(b, i);
    assert Coming(q, i) == Coming(b, i) - {step.p};
  }

  /** One group is like the other, with perhaps more picks. */
  ghost predicate SameMembers(g: Group, h: Group) {
    h.subs == g.subs && h.start == g.start && h.before == g.before && g.picks <= h.picks
  }

  /** A group not subscribed to keeps its members; a choice in it is recorded. */
  lemma MembersMove(b: Bus, step: Step, t: Topic, g: GroupName)
    requires Enabled(b, step) && b.Has(t, g) && !(step.Subscribe? && step.t == t && step.g == g)
    ensures var q := Apply(b, step);
      && q.Has(t, g) && SameMembers(b.Groups(t)[g], q.Groups(t)[g])
      && q.Groups(t)[g].picks == b.Groups(t)[g].picks +
         if step.Choose? && step.g == g && b.active[step.p].topic == t
         then [b.Groups(t)[g].next % |b.Groups(t)[g].subs|] else []
  {
    GroupsMove(b, step);
  }

  lemma MemberCounted(b: Bus, step: Step, t: Topic, g: GroupName, r: nat)
    requires Enabled(b, step) && TopicsOk(b) && CountsOk(b)
    requires b.Has(t, g) && !(step.Subscribe? && step.t == t && step.g == g) && r < |b.Groups(t)[g].subs|
    ensures var q := Apply(b, step);
      q.Has(t, g) && r < |q.Groups(t)[g].subs| && Counted(q, q.Groups(t)[g], r)
  {
    var was := b.Groups(t)[g];
    var i := was.subs[r];
    MembersMove(b, step, t, g);
    assert GroupOk(b, t, g, was) && GroupCounted(b, was) && Counted(b, was, r);
    DueMoves(b, step, i);
    if step.Choose? {
      var u := b.active[step.p].topic;
      var n := b.Groups(u)[step.g].next % |b.Groups(u)[step.g].subs|;
      assert GroupOk(b, u, step.g, b.Groups(u)[step.g]);
      assert InGroup(b, Target(b, step), u, step.g) && InGroup(b, i, t, g);
      if u == t && step.g == g {
        assert Target(b, step) == i <==> n == r;
        assert (was.picks + [n])[..|was.picks|] == was.picks;
      }
    }
  }

  lemma GrownCounted(b: Bus, step: Step)
    requires Enabled(b, step) && step.Subscribe? && TopicsOk(b) && CountsOk(b)
    ensures var q := Apply(b, step);
      q.Has(step.t, step.g) && GroupCounted(q, q.Groups(step.t)[step.g])
  {
    var q := Apply(b, step);
    var was := if step.g in b.Groups(step.t) then b.Groups(step.t)[step.g] else NO_GROUP;
    var now := Grow(was, step.sub, b.SentTo(was.subs + [step.sub]));
    assert q.Groups(step.t)[step.g] == now;
    if b.Has(step.t, step.g) {
      assert GroupOk(b, step.t, step.g, was) && GroupCounted(b, was);
    }
    forall r | 0 <= r < |was.subs| ensures was.subs[r] in b.subs {
      assert InGroup(b, was.subs[r], step.t, step.g);
    }
    forall r | 0 <= r < |now.subs| ensures Counted(q, now, r) {
      assert Coming(q, now.subs[r]) == {};
    }
  }

  lemma CountsKept(b: Bus, step: Step)
    requires Enabled(b, step) && TopicsOk(b) && CountsOk(b)
    ensures CountsOk(Apply(b, step))
  {
    var q := Apply(b, step);
    GroupsMove(b, step);
    forall t, g | q.Has(t, g) ensures GroupCounted(q, q.Groups(t)[g]) {
      if step.Subscribe? && step.t == t && step.g == g {
        GrownCounted(b, step);
      } else {
        MembersMove(b, step, t, g);
        assert GroupCounted(b, b.Groups(t)[g]);
        forall r | 0 <= r < |q.Groups(t)[g].subs| ensures Counted(q, q.Groups(t)[g], r) {
          MemberCounted(b, step, t, g, r);
        }
      }
    }
  }
}
