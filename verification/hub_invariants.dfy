/** What every step of the hub keeps, and what follows once nothing is in progress. */
module HubInvariants {
  import opened Wrappers
  import opened HubRegistry
  import opened HubProtocol

  // ---------------------------------------------------------------- the registry and its threads

  /** A registered set has between one member and the cap. */
  ghost predicate Sized(cfg: Config, reg: Registry) {
    && reg.Wf()
    && forall a :: a in reg.subs ==> 1 <= |reg.records[reg.subs[a]].clients| <= cfg.maxPerAccount
  }

  /** Thread t is a Join between its two critical sections, and claimed record sub. */
  ghost predicate JoiningFor(s: System, t: ThreadId, sub: SubId) {
    t in s.threads && !s.threads[t].Finishing? && s.threads[t].sub == sub
  }

  /** A Join in progress is the only one for its record, and a registered record without a
      subscription has a Join in progress that will give it one or take it down. */
  ghost predicate JoinsOk(s: System) {
    && s.reg.Wf()
    && (forall t :: t in s.threads && !s.threads[t].Finishing? ==>
          var th := s.threads[t];
          && th.sub in s.reg.records && s.reg.records[th.sub].cancel == None
          && forall a :: a in s.reg.subs && s.reg.subs[a] == th.sub ==> a == th.account)
    && (forall t, u, sub :: JoiningFor(s, t, sub) && JoiningFor(s, u, sub) ==> t == u)
    && (forall a :: a in s.reg.subs && s.reg.records[s.reg.subs[a]].cancel == None ==>
          exists t :: JoiningFor(s, t, s.reg.subs[a]))
  }

  ghost predicate WillClose(s: System, t: ThreadId, c: ClientId) {
    t in s.threads && s.threads[t].Finishing? && c in s.threads[t].closing
  }

  /** Every client is delivered to, closed, or about to be closed: none is stranded.  A registered
      one is not closed. */
  ghost predicate NobodyStranded(s: System) {
    && s.reg.Wf()
    && (forall t, c :: WillClose(s, t, c) ==> c in s.reg.clients && !s.reg.Registered(c))
    && (forall c :: c in s.reg.clients && s.reg.Registered(c) ==> !s.reg.clients[c].done)
    && (forall c :: c in s.reg.clients ==>
          s.reg.Registered(c) || s.reg.clients[c].done || exists t :: WillClose(s, t, c))
  }

  // ------------------------------------------------------------------------ subscription ownership

  /** Who can still cancel a subscription: the registry entry it feeds, or a call in progress. */
  datatype Owner = Entry(a: Account) | Worker(t: ThreadId)

  ghost predicate Holds(th: Thread, k: Token) {
    match th
    case Subscribed(_, _, _, token) => token == k
    case Finishing(_, cancels, _) => k in cancels
    case _ => false
  }

  ghost predicate Works(s: System, t: ThreadId, k: Token) {
    t in s.threads && Holds(s.threads[t], k)
  }

  ghost predicate Owns(s: System, o: Owner, k: Token) {
    match o
    case Entry(a) => s.reg.Feeds(a, k)
    case Worker(t) => Works(s, t, k)
  }

  /** Every live subscription has exactly one owner and every owned one is live; a subscription is
      cancelled at most once and is not live afterwards. */
  ghost predicate OwnedOnce(s: System) {
    && s.reg.Wf()
    && (forall o, k :: Owns(s, o, k) ==> k in s.open)
    && (forall k :: k in s.open ==> exists o :: Owns(s, o, k))
    && (forall o, p, k :: Owns(s, o, k) && Owns(s, p, k) ==> o == p)
    && (forall k :: k in s.cancelled ==> s.cancelled[k] == 1 && k !in s.open)
  }

  /** Subscriptions feed the account they were opened for, and a call holds at most one. */
  ghost predicate RightAccount(s: System) {
    && s.reg.Wf()
    && (forall a, k :: s.reg.Feeds(a, k) && k in s.open ==> s.open[k] == a)
    && (forall t, k :: Works(s, t, k) && s.threads[t].Subscribed? && k in s.open ==> s.open[k] == s.threads[t].account)
    && (forall t :: t in s.threads && s.threads[t].Finishing? ==> |s.threads[t].cancels| <= 1)
  }

  /** Join only ever hands back clients it made. */
  ghost predicate ReturnedOk(s: System) {
    && s.returned <= s.reg.clients.Keys
    && forall t :: t in s.threads ==>
         match s.threads[t]
         case Finishing(_, _, handsBack) => handsBack.Some? ==> handsBack.value in s.reg.clients
         case th => th.client in s.reg.clients
  }

  // ----------------------------------------------------------- what a step does to the membership

  ghost function Joined(step: Step): set<ClientId> {
    match step
    case JoinAttach(_, _, c) => {c}
    case JoinClaim(_, _, c, _) => {c}
    case _ => {}
  }

  ghost function Dropped(cfg: Config, s: System, step: Step): set<ClientId>
    requires Enabled(cfg, s, step)
  {
    match step
    case JoinAbandon(t) => s.reg.Abandon(s.threads[t].account, s.threads[t].sub).1
    case Leave(_, c) => if s.reg.Registered(c) then {c} else {}
    case Dispatch(_, a, _) => s.reg.Slow(cfg, a)
    case _ => {}
  }

  ghost function Closed(step: Step): set<ClientId> {
    match step
    case CloseClient(_, c) => {c}
    case _ => {}
  }

  /** Exactly the joined, dropped and closed clients change sides in a step. */
  lemma Membership(cfg: Config, s: System, step: Step)
    requires Enabled(cfg, s, step)
    ensures Moved(s.reg, Apply(cfg, s, step).reg, Joined(step), Dropped(cfg, s, step), Closed(step))
  {
    match step
    case JoinAttach(_, a, c) => AttachMoves(s.reg, a, c);
    case JoinClaim(_, a, c, sub) => ClaimMoves(s.reg, a, c, sub);
    case JoinInstall(t) => InstallMoves(s.reg, s.threads[t].account, s.threads[t].sub, s.threads[t].token);
    case JoinAbandon(t) => AbandonMoves(s.reg, s.threads[t].account, s.threads[t].sub);
    case Leave(_, c) => RemoveMoves(s.reg, c);
    case Dispatch(_, a, p) => DeliverMoves(cfg, s.reg, a, p);
    case _ =>
  }

  // --------------------------------------------------------------------------------- preservation

  lemma DeliverSized(cfg: Config, r: Registry, a: Account, p: Payload)
    requires Sized(cfg, r)
    ensures Sized(cfg, r.Deliver(cfg, a, p).0)
  {
    if a in r.subs {
      var members := r.records[r.subs[a]].clients;
      var left := members - r.Slow(cfg, a);
      assert left + members * r.Slow(cfg, a) == members;
      if r.Slow(cfg, a) == {} {
        assert left == members;
      }
    }
  }

  lemma RemoveSized(cfg: Config, r: Registry, c: ClientId)
    requires Sized(cfg, r) && c in r.clients
    ensures Sized(cfg, r.Remove(c).0)
  {
  }

  lemma SizesKept(cfg: Config, s: System, step: Step)
    requires cfg.Valid() && Enabled(cfg, s, step) && Sized(cfg, s.reg)
    ensures Sized(cfg, Apply(cfg, s, step).reg)
  {
    match step
    case Leave(_, c) => RemoveSized(cfg, s.reg, c);
    case Dispatch(_, a, p) => DeliverSized(cfg, s.reg, a, p);
    case _ =>
  }

  /** Where a step's new closing duties come from and how old ones end. */
  lemma ClosingMoves(cfg: Config, s: System, step: Step)
    requires Enabled(cfg, s, step)
    ensures var q := Apply(cfg, s, step);
      && (forall t, c :: WillClose(q, t, c) ==>
            WillClose(s, t, c) || c in Dropped(cfg, s, step) || (step.Leave? && step.c == c))
      && (forall t, c :: WillClose(s, t, c) ==> WillClose(q, t, c) || c in Closed(step))
      && (forall c :: c in Dropped(cfg, s, step) ==> WillClose(q, step.t, c))
      && (forall c :: c in Closed(step) ==> WillClose(s, step.t, c))
  {
  }

  lemma ClosedOrDelivered(s: System, q: System, dropped: set<ClientId>, closed: set<ClientId>, joined: set<ClientId>,
                          leaving: set<ClientId>)
    requires NobodyStranded(s) && Moved(s.reg, q.reg, joined, dropped, closed)
    requires forall t, c :: WillClose(q, t, c) ==> WillClose(s, t, c) || c in leaving
    requires forall t, c :: WillClose(s, t, c) ==> WillClose(q, t, c) || c in closed
    requires forall c :: c in dropped ==> exists t :: WillClose(q, t, c)
    requires forall c :: c in leaving ==> c in s.reg.clients && (s.reg.Registered(c) ==> c in dropped)
    requires forall c :: c in closed ==> exists t :: WillClose(s, t, c)
    ensures NobodyStranded(q)
  {
  }

  lemma NobodyStrandedKept(cfg: Config, s: System, step: Step)
    requires Enabled(cfg, s, step) && NobodyStranded(s)
    ensures NobodyStranded(Apply(cfg, s, step))
  {
    Membership(cfg, s, step);
    ClosingMoves(cfg, s, step);
    var leaving := Dropped(cfg, s, step) + if step.Leave? then {step.c} else {};
    ClosedOrDelivered(s, Apply(cfg, s, step), Dropped(cfg, s, step), Closed(step), Joined(step), leaving);
  }

  /** The Join whose second critical section this step is. */
  ghost predicate Settles(step: Step, t: ThreadId) {
    (step.JoinInstall? || step.JoinAbandon?) && step.t == t
  }

  /** Records are never forgotten, entries only appear with JoinClaim, and a record's cancel is
      only ever set by JoinInstall while the record is registered. */
  ghost predicate EntriesMoved(s: System, q: System, step: Step) {
    && s.reg.Wf() && q.reg.Wf()
    && (step.JoinInstall? || step.JoinAbandon? ==> step.t in s.threads)
    && (step.JoinInstall? ==> s.threads[step.t].Subscribed?)
    && (step.JoinAbandon? ==> s.threads[step.t].Refused?)
    && (forall a :: a in q.reg.subs ==>
          s.reg.Current(a, q.reg.subs[a]) || (step.JoinClaim? && step.a == a && step.sub == q.reg.subs[a]))
    && (forall sub :: sub in s.reg.records ==>
          sub in q.reg.records && q.reg.records[sub].cancel == (
            if step.JoinInstall? && s.threads[step.t].sub == sub && s.reg.Current(s.threads[step.t].account, sub)
            then Some(s.threads[step.t].token) else s.reg.records[sub].cancel))
    && (step.JoinClaim? ==>
          && step.sub in q.reg.records && q.reg.records[step.sub].cancel == None
          && step.sub !in s.reg.records && step.t !in s.threads)
    && (step.JoinAbandon? ==>
          var th := s.threads[step.t];
          s.reg.Current(th.account, th.sub) ==> th.account !in q.reg.subs)
  }

  lemma Entries(cfg: Config, s: System, step: Step)
    requires Enabled(cfg, s, step)
    ensures EntriesMoved(s, Apply(cfg, s, step), step)
  {
  }

  /** A Join is between its sections from JoinClaim to its own second section. */
  ghost predicate JoiningMoved(s: System, q: System, step: Step) {
    && (forall t, sub :: JoiningFor(q, t, sub) <==>
          (JoiningFor(s, t, sub) && !Settles(step, t)) || (step.JoinClaim? && step.t == t && step.sub == sub))
    && (forall t :: t in q.threads && !q.threads[t].Finishing? ==>
          if t in s.threads then !s.threads[t].Finishing? && q.threads[t].account == s.threads[t].account
          else step.JoinClaim? && step.a == q.threads[t].account)
  }

  lemma JoiningMoves(cfg: Config, s: System, step: Step)
    requires Enabled(cfg, s, step)
    ensures JoiningMoved(s, Apply(cfg, s, step), step)
  {
  }

  lemma JoinsFollow(s: System, q: System, step: Step)
    requires JoinsOk(s) && EntriesMoved(s, q, step) && JoiningMoved(s, q, step)
    ensures JoinsOk(q)
  {
    forall t | t in q.threads && !q.threads[t].Finishing?
      ensures var th := q.threads[t];
        && th.sub in q.reg.records && q.reg.records[th.sub].cancel == None
        && forall a :: a in q.reg.subs && q.reg.subs[a] == th.sub ==> a == th.account
    {
      assert JoiningFor(q, t, q.threads[t].sub);
      if step.JoinInstall? {
        assert JoiningFor(s, step.t, s.threads[step.t].sub);
      }
    }
    forall a | a in q.reg.subs && q.reg.records[q.reg.subs[a]].cancel == None
      ensures exists t :: JoiningFor(q, t, q.reg.subs[a])
    {
      var sub := q.reg.subs[a];
      if step.JoinClaim? && step.a == a && step.sub == sub {
        assert JoiningFor(q, step.t, sub);
      } else {
        var t :| JoiningFor(s, t, sub);
        assert JoiningFor(q, t, sub);
      }
    }
  }

  lemma JoinsKept(cfg: Config, s: System, step: Step)
    requires Enabled(cfg, s, step) && JoinsOk(s)
    ensures JoinsOk(Apply(cfg, s, step))
  {
    Entries(cfg, s, step);
    JoiningMoves(cfg, s, step);
    JoinsFollow(s, Apply(cfg, s, step), step);
  }

  /** JoinInstall gives subscription k to account a's entry. */
  ghost predicate Installs(s: System, step: Step, a: Account, k: Token) {
    && step.JoinInstall? && step.t in s.threads
    && s.threads[step.t].Subscribed? && s.threads[step.t].account == a && s.threads[step.t].token == k
    && s.reg.Current(a, s.threads[step.t].sub)
  }

  /** Leave or Dispatch takes subscription k from account a's entry, which it deletes. */
  ghost predicate Takes(cfg: Config, s: System, step: Step, a: Account, k: Token)
    requires Enabled(cfg, s, step)
  {
    match step
    case Leave(_, c) => a == s.reg.clients[c].account && s.reg.Remove(c).1 == Some(k)
    case Dispatch(_, b, p) => a == b && k in s.reg.Deliver(cfg, b, p).1
    case _ => false
  }

  /** An entry's subscription changes only by being installed or taken. */
  lemma FeedsMove(cfg: Config, s: System, step: Step)
    requires Enabled(cfg, s, step) && JoinsOk(s)
    ensures var q := Apply(cfg, s, step);
      && (forall a, k :: Takes(cfg, s, step, a, k) ==> s.reg.Feeds(a, k))
      && (forall a, k :: q.reg.Feeds(a, k) <==>
            Installs(s, step, a, k) || (s.reg.Feeds(a, k) && !Takes(cfg, s, step, a, k)))
  {
    match step {
      case Leave(_, c) => RemoveFeeds(s.reg, c);
      case Dispatch(_, a, p) => DeliverFeeds(cfg, s.reg, a, p);
      case JoinAbandon(t) => assert JoiningFor(s, t, s.threads[t].sub);
      case JoinInstall(t) => assert JoiningFor(s, t, s.threads[t].sub);
      case _ =>
    }
  }

  /** The account whose entry a step gives a subscription to or takes one from. */
  ghost function EntryOf(s: System, step: Step): Account {
    match step
    case JoinInstall(t) => if t in s.threads && s.threads[t].Subscribed? then s.threads[t].account else 0
    case Leave(_, c) => if c in s.reg.clients then s.reg.clients[c].account else 0
    case Dispatch(_, a, _) => a
    case _ => 0
  }

  /** A call in progress holds what it opened or took, until it installs or cancels it. */
  ghost predicate WorksMoved(cfg: Config, s: System, q: System, step: Step)
    requires Enabled(cfg, s, step)
  {
    var a := EntryOf(s, step);
    && (forall t, k :: Works(q, t, k) ==>
          || (Works(s, t, k) && !(step.CallCancel? && step.t == t) && !(Installs(s, step, a, k) && step.t == t))
          || (step.SubscribeOk? && step.t == t && step.k == k)
          || (Takes(cfg, s, step, a, k) && step.t == t))
    && (forall t, k ::
          Works(s, t, k) && !(step.CallCancel? && step.t == t) && !(Installs(s, step, a, k) && step.t == t) ==>
          Works(q, t, k))
    && (forall k :: Takes(cfg, s, step, a, k) ==> Works(q, step.t, k))
    && (step.SubscribeOk? ==> Works(q, step.t, step.k))
  }

  lemma WorksMove(cfg: Config, s: System, step: Step)
    requires Enabled(cfg, s, step)
    requires forall t :: t in s.threads && s.threads[t].Finishing? ==> |s.threads[t].cancels| <= 1
    ensures WorksMoved(cfg, s, Apply(cfg, s, step), step)
  {
    var q := Apply(cfg, s, step);
    forall t, k | t != step.t ensures Works(q, t, k) <==> Works(s, t, k) {
    }
    forall k ensures Works(q, step.t, k) <==>
      || (Works(s, step.t, k) && !step.CallCancel? && !Installs(s, step, EntryOf(s, step), k))
      || (step.SubscribeOk? && step.k == k)
      || Takes(cfg, s, step, EntryOf(s, step), k)
    {
    }
  }

  ghost predicate FeedsMoved(cfg: Config, s: System, q: System, step: Step)
    requires Enabled(cfg, s, step)
  {
    && q.reg.Wf()
    && (forall a, k :: Takes(cfg, s, step, a, k) ==> s.reg.Feeds(a, k) && a == EntryOf(s, step))
    && (forall a, k :: Installs(s, step, a, k) ==> Works(s, step.t, k) && a == EntryOf(s, step))
    && (forall a, k :: q.reg.Feeds(a, k) <==>
          Installs(s, step, a, k) || (s.reg.Feeds(a, k) && !Takes(cfg, s, step, a, k)))
  }

  /** The subscriptions opened and cancelled by a step. */
  ghost predicate OpenMoved(s: System, q: System, step: Step) {
    match step
    case SubscribeOk(t, k) =>
      k !in s.open && k !in s.cancelled && q.open.Keys == s.open.Keys + {k} && q.cancelled == s.cancelled
    case CallCancel(t) =>
      exists k :: Works(s, t, k) && (forall j :: Works(s, t, j) ==> j == k)
        && q.open.Keys == s.open.Keys - {k} && q.cancelled == s.cancelled + multiset{k}
    case _ => q.open == s.open && q.cancelled == s.cancelled
  }

  lemma OpenMoves(cfg: Config, s: System, step: Step)
    requires Enabled(cfg, s, step)
    requires forall t :: t in s.threads && s.threads[t].Finishing? ==> |s.threads[t].cancels| <= 1
    ensures OpenMoved(s, Apply(cfg, s, step), step)
  {
    if step.CallCancel? {
      assert Works(s, step.t, s.threads[step.t].cancels[0]);
    }
  }

  /** Who owned k before the step, given that o owns it after. */
  lemma OwnerBefore(cfg: Config, s: System, q: System, step: Step, o: Owner, k: Token) returns (b: Owner)
    requires Enabled(cfg, s, step) && s.reg.Wf()
    requires FeedsMoved(cfg, s, q, step) && WorksMoved(cfg, s, q, step)
    requires Owns(q, o, k) && !(step.SubscribeOk? && k == step.k)
    ensures Owns(s, b, k)
    ensures b == o || (b == Worker(step.t) && o == Entry(EntryOf(s, step)) && Installs(s, step, o.a, k))
                   || (b == Entry(EntryOf(s, step)) && o == Worker(step.t) && Takes(cfg, s, step, b.a, k))
    ensures step.CallCancel? ==> b != Worker(step.t)
  {
    var e := EntryOf(s, step);
    if o.Entry? {
      b := if Installs(s, step, e, k) && o.a == e then Worker(step.t) else o;
    } else {
      b := if Takes(cfg, s, step, e, k) && o.t == step.t then Entry(e) else o;
    }
  }

  lemma LiveIfOwned(cfg: Config, s: System, q: System, step: Step, o: Owner, k: Token)
    requires Enabled(cfg, s, step) && OwnedOnce(s)
    requires FeedsMoved(cfg, s, q, step) && WorksMoved(cfg, s, q, step) && OpenMoved(s, q, step)
    requires Owns(q, o, k)
    ensures k in q.open
  {
    if !(step.SubscribeOk? && k == step.k) {
      var b := OwnerBefore(cfg, s, q, step, o, k);
      if step.CallCancel? && Works(s, step.t, k) {
        assert Owns(s, Worker(step.t), k);
      }
    }
  }

  lemma OwnedIfLive(cfg: Config, s: System, q: System, step: Step, k: Token)
    requires Enabled(cfg, s, step) && OwnedOnce(s)
    requires FeedsMoved(cfg, s, q, step) && WorksMoved(cfg, s, q, step) && OpenMoved(s, q, step)
    requires k in q.open
    ensures exists o :: Owns(q, o, k)
  {
    if k in s.open {
      var b :| Owns(s, b, k);
      var e := EntryOf(s, step);
      if b.Entry? && Takes(cfg, s, step, b.a, k) {
        assert Owns(q, Worker(step.t), k);
      } else if b == Worker(step.t) && Installs(s, step, e, k) {
        assert Owns(q, Entry(e), k);
      } else {
        assert Owns(q, b, k);
      }
    } else {
      assert Owns(q, Worker(step.t), k);
    }
  }

  lemma OneOwner(cfg: Config, s: System, q: System, step: Step, o: Owner, p: Owner, k: Token)
    requires Enabled(cfg, s, step) && OwnedOnce(s)
    requires FeedsMoved(cfg, s, q, step) && WorksMoved(cfg, s, q, step)
    requires Owns(q, o, k) && Owns(q, p, k)
    ensures o == p
  {
    if step.SubscribeOk? && k == step.k {
      assert !Owns(s, o, k) && !Owns(s, p, k);
    } else {
      var b := OwnerBefore(cfg, s, q, step, o, k);
      var d := OwnerBefore(cfg, s, q, step, p, k);
      assert b == d;
    }
  }

  lemma OwnedFollows(cfg: Config, s: System, q: System, step: Step)
    requires Enabled(cfg, s, step) && OwnedOnce(s)
    requires FeedsMoved(cfg, s, q, step) && WorksMoved(cfg, s, q, step) && OpenMoved(s, q, step)
    ensures OwnedOnce(q)
  {
    forall o, k | Owns(q, o, k) ensures k in q.open {
      LiveIfOwned(cfg, s, q, step, o, k);
    }
    forall k | k in q.open ensures exists o :: Owns(q, o, k) {
      OwnedIfLive(cfg, s, q, step, k);
    }
    forall o, p, k | Owns(q, o, k) && Owns(q, p, k) ensures o == p {
      OneOwner(cfg, s, q, step, o, p, k);
    }
    forall k | k in q.cancelled ensures q.cancelled[k] == 1 && k !in q.open {
      if step.CallCancel? && Works(s, step.t, k) {
        assert Owns(s, Worker(step.t), k);
      }
    }
  }

  lemma RightWorkers(cfg: Config, s: System, step: Step, t: ThreadId, k: Token)
    requires Enabled(cfg, s, step) && OwnedOnce(s) && RightAccount(s)
    requires var q := Apply(cfg, s, step);
      Works(q, t, k) && q.threads[t].Subscribed? && k in q.open
    ensures Apply(cfg, s, step).open[k] == Apply(cfg, s, step).threads[t].account
  {
    if !(step.SubscribeOk? && step.t == t) {
      assert Works(s, t, k) && s.threads[t].Subscribed? && Owns(s, Worker(t), k);
    }
  }

  lemma RightEntries(cfg: Config, s: System, step: Step, a: Account, k: Token)
    requires Enabled(cfg, s, step) && JoinsOk(s) && OwnedOnce(s) && RightAccount(s)
    requires Apply(cfg, s, step).reg.Feeds(a, k) && k in Apply(cfg, s, step).open
    ensures Apply(cfg, s, step).open[k] == a
  {
    FeedsMove(cfg, s, step);
    if Installs(s, step, a, k) {
      assert Works(s, step.t, k) && Owns(s, Worker(step.t), k);
    } else {
      assert Owns(s, Entry(a), k);
    }
  }

  lemma RightAccountKept(cfg: Config, s: System, step: Step)
    requires Enabled(cfg, s, step) && JoinsOk(s) && OwnedOnce(s) && RightAccount(s)
    ensures RightAccount(Apply(cfg, s, step))
  {
    var q := Apply(cfg, s, step);
    forall a, k | q.reg.Feeds(a, k) && k in q.open ensures q.open[k] == a {
      RightEntries(cfg, s, step, a, k);
    }
    forall t, k | Works(q, t, k) && q.threads[t].Subscribed? && k in q.open
      ensures q.open[k] == q.threads[t].account
    {
      RightWorkers(cfg, s, step, t, k);
    }
  }

  lemma ReturnedKept(cfg: Config, s: System, step: Step)
    requires Enabled(cfg, s, step) && ReturnedOk(s)
    ensures ReturnedOk(Apply(cfg, s, step))
  {
    Membership(cfg, s, step);
  }

  // ------------------------------------------------------------------------------------- all runs

  ghost predicate Inv(cfg: Config, s: System) {
    Sized(cfg, s.reg) && NobodyStranded(s) && JoinsOk(s) && OwnedOnce(s) && RightAccount(s) && ReturnedOk(s)
  }

  lemma InvKept(cfg: Config, s: System, step: Step)
    requires cfg.Valid() && Enabled(cfg, s, step) && Inv(cfg, s)
    ensures Inv(cfg, Apply(cfg, s, step))
  {
    SizesKept(cfg, s, step);
    NobodyStrandedKept(cfg, s, step);
    JoinsKept(cfg, s, step);
    FeedsMove(cfg, s, step);
    WorksMove(cfg, s, step);
    OpenMoves(cfg, s, step);
    OwnedFollows(cfg, s, Apply(cfg, s, step), step);
    RightAccountKept(cfg, s, step);
    ReturnedKept(cfg, s, step);
  }

  ghost predicate StepOk(cfg: Config, run: seq<System>, steps: seq<Step>, i: nat)
    requires i < |steps| < |run|
  {
    Enabled(cfg, run[i], steps[i]) && run[i + 1] == Apply(cfg, run[i], steps[i])
  }

  /** run lists the states passed through when the steps are taken one after another. */
  ghost predicate IsRun(cfg: Config, run: seq<System>, steps: seq<Step>) {
    && |run| == |steps| + 1 && run[0] == Init()
    && forall i :: 0 <= i < |steps| ==> StepOk(cfg, run, steps, i)
  }

  lemma InitOk(cfg: Config)
    ensures Inv(cfg, Init())
  {
  }

  lemma {:induction false} EveryReachableState(cfg: Config, run: seq<System>, steps: seq<Step>, n: nat)
    requires cfg.Valid() && IsRun(cfg, run, steps) && n < |run|
    ensures Inv(cfg, run[n])
  {
    if n == 0 {
      InitOk(cfg);
    } else {
      EveryReachableState(cfg, run, steps, n - 1);
      assert StepOk(cfg, run, steps, n - 1);
      InvKept(cfg, run[n - 1], steps[n - 1]);
    }
  }

  /** A cancel is only ever called on a live subscription, so none is cancelled twice. */
  lemma CancelsAreLive(cfg: Config, run: seq<System>, steps: seq<Step>, n: nat)
    requires cfg.Valid() && IsRun(cfg, run, steps) && n < |steps| && steps[n].CallCancel?
    ensures exists k :: k in run[n].open && k !in run[n].cancelled && Works(run[n], steps[n].t, k)
              && k !in run[n + 1].open && k in run[n + 1].cancelled
  {
    EveryReachableState(cfg, run, steps, n);
    assert StepOk(cfg, run, steps, n);
    var k := run[n].threads[steps[n].t].cancels[0];
    assert Owns(run[n], Worker(steps[n].t), k);
  }

  /** Once no call is in progress, live subscriptions and registry entries match one to one. */
  lemma NothingLeaks(cfg: Config, run: seq<System>, steps: seq<Step>, n: nat)
    requires cfg.Valid() && IsRun(cfg, run, steps) && n < |run| && run[n].threads == map[]
    ensures var s := run[n];
      && (forall a :: a in s.reg.subs ==> exists k :: k in s.open && s.reg.Feeds(a, k))
      && (forall k :: k in s.open ==> s.reg.Feeds(s.open[k], k))
      && (forall a, b, k :: s.reg.Feeds(a, k) && s.reg.Feeds(b, k) ==> a == b)
  {
    EveryReachableState(cfg, run, steps, n);
    var s := run[n];
    forall a | a in s.reg.subs ensures exists k :: k in s.open && s.reg.Feeds(a, k) {
      assert s.reg.records[s.reg.subs[a]].cancel != None;
      var k := s.reg.records[s.reg.subs[a]].cancel.value;
      assert Owns(s, Entry(a), k);
    }
    forall k | k in s.open ensures s.reg.Feeds(s.open[k], k) {
      var o :| Owns(s, o, k);
      assert o.Entry?;
    }
    forall a, b, k | s.reg.Feeds(a, k) && s.reg.Feeds(b, k) ensures a == b {
      assert Owns(s, Entry(a), k) && Owns(s, Entry(b), k);
    }
  }

  /** Once no call is in progress, a socket that Join handed back is closed, or registered and fed
      by a live subscription of its account; a registered one is open in every state. */
  lemma NobodyIsStranded(cfg: Config, run: seq<System>, steps: seq<Step>, n: nat, c: ClientId)
    requires cfg.Valid() && IsRun(cfg, run, steps) && n < |run| && c in run[n].returned
    ensures c in run[n].reg.clients && (run[n].reg.Registered(c) ==> !run[n].reg.clients[c].done)
    ensures run[n].threads == map[] && !run[n].reg.clients[c].done ==>
              && run[n].reg.Registered(c)
              && exists k :: k in run[n].open && run[n].reg.Feeds(run[n].reg.clients[c].account, k)
  {
    EveryReachableState(cfg, run, steps, n);
    if run[n].threads == map[] {
      NothingLeaks(cfg, run, steps, n);
      assert !exists t :: WillClose(run[n], t, c);
    }
  }
}
