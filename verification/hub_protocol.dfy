/**
 The hub under every interleaving.  A step is one critical section, one fan-out call, one deferred
 `close` or `cancel`, or one receive by a write pump.  Calls in progress are threads that remember
 where they stopped.
 */
module HubProtocol {
  import opened Wrappers
  import opened HubRegistry

  type ThreadId = int

  datatype Thread =
    | Subscribing(account: Account, sub: SubId, client: ClientId)               // in OnBroadcast
    | Subscribed(account: Account, sub: SubId, client: ClientId, token: Token)  // OnBroadcast returned
    | Refused(account: Account, sub: SubId, client: ClientId)                   // OnBroadcast failed
    | Finishing(closing: set<ClientId>, cancels: seq<Token>, handsBack: Option<ClientId>)

  datatype System = System(
    reg: Registry,
    threads: map<ThreadId, Thread>,
    open: map<Token, Account>,          // live fan-out subscriptions
    cancelled: multiset<Token>,         // every call of a cancel function
    returned: set<ClientId>)            // clients that Join handed back

  function Init(): System {
    System(Registry(map[], map[], map[]), map[], map[], multiset{}, {})
  }

  datatype Step =
    | JoinAttach(t: ThreadId, a: Account, c: ClientId)
    | JoinTooMany(t: ThreadId, a: Account)
    | JoinClaim(t: ThreadId, a: Account, c: ClientId, sub: SubId)
    | SubscribeOk(t: ThreadId, k: Token)
    | SubscribeErr(t: ThreadId)
    | JoinInstall(t: ThreadId)
    | JoinAbandon(t: ThreadId)
    | Leave(t: ThreadId, c: ClientId)
    | Dispatch(t: ThreadId, a: Account, p: Payload)
    | CloseClient(t: ThreadId, c: ClientId)
    | CallCancel(t: ThreadId)
    | Finish(t: ThreadId)
    | Receive(t: ThreadId, c: ClientId)

  /** When a step can be taken.  Leave may be called on any client and dispatch at any time: a
      message in flight can call it after its subscription was unregistered or even cancelled. */
  ghost predicate Enabled(cfg: Config, s: System, step: Step) {
    && s.reg.Wf()
    && match step
       case JoinAttach(_, a, c) =>
         && a in s.reg.subs && c !in s.reg.clients
         && |s.reg.records[s.reg.subs[a]].clients| < cfg.maxPerAccount
       case JoinTooMany(_, a) =>
         a in s.reg.subs && |s.reg.records[s.reg.subs[a]].clients| >= cfg.maxPerAccount
       case JoinClaim(t, a, c, sub) =>
         a !in s.reg.subs && c !in s.reg.clients && sub !in s.reg.records && t !in s.threads
       case SubscribeOk(t, k) =>
         t in s.threads && s.threads[t].Subscribing? && k !in s.open && k !in s.cancelled
       case SubscribeErr(t) => t in s.threads && s.threads[t].Subscribing?
       case JoinInstall(t) =>
         t in s.threads && s.threads[t].Subscribed? && s.threads[t].sub in s.reg.records
       case JoinAbandon(t) =>
         t in s.threads && s.threads[t].Refused? && s.threads[t].sub in s.reg.records
       case Leave(t, c) => c in s.reg.clients && t !in s.threads
       case Dispatch(t, _, _) => t !in s.threads
       case CloseClient(t, c) =>
         t in s.threads && s.threads[t].Finishing? && c in s.threads[t].closing && c in s.reg.clients
       case CallCancel(t) =>
         && t in s.threads && s.threads[t].Finishing?
         && s.threads[t].closing == {} && s.threads[t].cancels != []
       case Finish(t) =>
         && t in s.threads && s.threads[t].Finishing?
         && s.threads[t].closing == {} && s.threads[t].cancels == []
       case Receive(_, c) => c in s.reg.clients && s.reg.clients[c].out != []
  }

  ghost function Apply(cfg: Config, s: System, step: Step): System
    requires Enabled(cfg, s, step)
  {
    match step
    case JoinAttach(_, a, c) =>
      s.(reg := s.reg.Attach(a, c), returned := s.returned + {c})
    case JoinTooMany(_, a) => s
    case JoinClaim(t, a, c, sub) =>
      s.(reg := s.reg.Claim(a, c, sub), threads := s.threads[t := Subscribing(a, sub, c)])
    case SubscribeOk(t, k) =>
      var th := s.threads[t];
      s.(open := s.open[k := th.account], threads := s.threads[t := Subscribed(th.account, th.sub, th.client, k)])
    case SubscribeErr(t) =>
      var th := s.threads[t];
      s.(threads := s.threads[t := Refused(th.account, th.sub, th.client)])
    case JoinInstall(t) =>
      var th := s.threads[t];
      var cancels := if s.reg.Current(th.account, th.sub) then [] else [th.token];
      s.(reg := s.reg.Install(th.account, th.sub, th.token),
         threads := s.threads[t := Finishing({}, cancels, Some(th.client))])
    case JoinAbandon(t) =>
      var th := s.threads[t];
      var (reg, stranded) := s.reg.Abandon(th.account, th.sub);
      s.(reg := reg, threads := s.threads[t := Finishing(stranded, [], None)])
    case Leave(t, c) =>
      var (reg, cancel) := s.reg.Remove(c);
      s.(reg := reg, threads := s.threads[t := Finishing({c}, if cancel.Some? then [cancel.value] else [], None)])
    case Dispatch(t, a, p) =>
      var (reg, cancels) := s.reg.Deliver(cfg, a, p);
      s.(reg := reg, threads := s.threads[t := Finishing(s.reg.Slow(cfg, a), cancels, None)])
    case CloseClient(t, c) =>
      var th := s.threads[t];
      s.(reg := s.reg.Close(c), threads := s.threads[t := th.(closing := th.closing - {c})])
    case CallCancel(t) =>
      var th := s.threads[t];
      var k := th.cancels[0];
      s.(open := s.open - {k}, cancelled := s.cancelled + multiset{k},
         threads := s.threads[t := th.(cancels := th.cancels[1..])])
    case Finish(t) =>
      var th := s.threads[t];
      s.(threads := s.threads - {t},
         returned := if th.handsBack.Some? then s.returned + {th.handsBack.value} else s.returned)
    case Receive(_, c) =>
      s.(reg := s.reg.Receive(c))
  }
}
