/**
 The hub's registry: what the mutex in internal/gateway/ws/hub.go protects, together with the
 client records it points at.  Each function is the effect of one critical section (or of one
 `close`), so the concurrent model in hub_protocol.dfy can treat it as an atomic step; the class
 in hub_server.dfy is the code that computes it.

 Pointers are modelled by identifiers: `*accountSub` by SubId and `*Client` by ClientId.  Two
 pointers are equal exactly when their identifiers are.
 */
module HubRegistry {
  import opened Wrappers

  type Account = int
  type ClientId = int
  type SubId = int
  type Token = int        // one fan-out subscription; holding it means being able to cancel it
  type Payload = string

  /** Both settings are validated as greater than zero when the configuration is loaded. */
  datatype Config = Config(sendBuffer: nat, maxPerAccount: nat) {
    ghost predicate Valid() {
      sendBuffer >= 1 && maxPerAccount >= 1
    }
  }

  /** `out` is the content of the buffered channel, oldest first. */
  datatype Client = Client(account: Account, out: seq<Payload>, done: bool)

  datatype AccountSub = AccountSub(clients: set<ClientId>, cancel: Option<Token>)

  datatype Registry = Registry(
    subs: map<Account, SubId>,
    records: map<SubId, AccountSub>,
    clients: map<ClientId, Client>)
  {
    /** Every pointer in the registry leads somewhere, and to a client of the right account. */
    ghost predicate Wf() {
      && (forall a :: a in subs ==> subs[a] in records)
      && (forall a, b :: a in subs && b in subs && subs[a] == subs[b] ==> a == b)
      && (forall a, c :: a in subs && c in records[subs[a]].clients ==> c in clients && clients[c].account == a)
    }

    /** The fan-out subscription feeding account a's sockets is k. */
    ghost predicate Feeds(a: Account, k: Token) {
      a in subs && subs[a] in records && records[subs[a]].cancel == Some(k)
    }

    /** c is one of the sockets the hub would deliver to. */
    ghost predicate Registered(c: ClientId) {
      && c in clients
      && clients[c].account in subs
      && subs[clients[c].account] in records
      && c in records[subs[clients[c].account]].clients
    }

    /** The first critical section of Join when the account already has an entry with room. */
    function Attach(a: Account, c: ClientId): (r: Registry)
      requires Wf() && a in subs && c !in clients
      ensures r.Wf()
    {
      var rec := records[subs[a]];
      this.(clients := clients[c := Client(a, [], false)],
            records := records[subs[a] := rec.(clients := rec.clients + {c})])
    }

    /** The first critical section of Join when it is the account's first socket. */
    function Claim(a: Account, c: ClientId, sub: SubId): (r: Registry)
      requires Wf() && a !in subs && c !in clients && sub !in records
      ensures r.Wf()
    {
      this.(clients := clients[c := Client(a, [], false)],
            records := records[sub := AccountSub({c}, None)],
            subs := subs[a := sub])
    }

    predicate Current(a: Account, sub: SubId) {
      a in subs && subs[a] == sub
    }

    /** The second critical section of Join after OnBroadcast succeeded. */
    function Install(a: Account, sub: SubId, k: Token): (r: Registry)
      requires Wf() && sub in records
      ensures r.Wf()
    {
      if Current(a, sub) then this.(records := records[sub := records[sub].(cancel := Some(k))]) else this
    }

    /** The second critical section of Join after OnBroadcast failed. */
    function Abandon(a: Account, sub: SubId): (r: (Registry, set<ClientId>))
      requires Wf() && sub in records
      ensures r.0.Wf()
    {
      if Current(a, sub) then (this.(subs := subs - {a}), records[sub].clients) else (this, {})
    }

    /** `remove`: unregisters c, giving back the cancel when c was its account's last socket. */
    function Remove(c: ClientId): (r: (Registry, Option<Token>))
      requires Wf() && c in clients
      ensures r.0.Wf()
    {
      var a := clients[c].account;
      if a !in subs || c !in records[subs[a]].clients then (this, None)
      else
        var rec := records[subs[a]];
        var left := rec.clients - {c};
        var smaller := this.(records := records[subs[a] := rec.(clients := left)]);
        if left == {} then (smaller.(subs := subs - {a}), rec.cancel) else (smaller, None)
    }

    /** The sockets of account a whose buffer is full: those a dispatch drops. */
    function Slow(cfg: Config, a: Account): set<ClientId>
      requires Wf()
    {
      if a !in subs then {}
      else set c | c in records[subs[a]].clients && |clients[c].out| >= cfg.sendBuffer
    }

    /** Hand p to every socket of account a whose buffer has room. */
    function Send(cfg: Config, a: Account, p: Payload): (r: Registry)
      requires Wf() && a in subs
      ensures r.Wf()
    {
      var ready := records[subs[a]].clients - Slow(cfg, a);
      this.(clients := map c | c in clients ::
        if c in ready then clients[c].(out := clients[c].out + [p]) else clients[c])
    }

    /** Unregister the sockets in `gone`, and the account's entry with its last socket. */
    function Without(a: Account, gone: set<ClientId>): (r: Registry)
      requires Wf() && a in subs
      ensures r.Wf()
    {
      var rec := records[subs[a]];
      var left := rec.clients - gone;
      var smaller := this.(records := records[subs[a] := rec.(clients := left)]);
      if gone != {} && left == {} then smaller.(subs := subs - {a}) else smaller
    }

    /** The critical section of dispatch: hand p to every socket with room, unregister the rest. */
    function Deliver(cfg: Config, a: Account, p: Payload): (r: (Registry, seq<Token>))
      requires Wf()
      ensures r.0.Wf()
    {
      if a !in subs then (this, [])
      else
        var cancel := records[subs[a]].cancel;
        var r := Send(cfg, a, p).Without(a, Slow(cfg, a));
        (r, if a !in r.subs && cancel.Some? then [cancel.value] else [])
    }

    /** `Client.close`, once or many times. */
    function Close(c: ClientId): (r: Registry)
      requires Wf() && c in clients
      ensures r.Wf()
    {
      this.(clients := clients[c := clients[c].(done := true)])
    }

    /** The write pump takes the oldest payload off the channel. */
    function Receive(c: ClientId): (r: Registry)
      requires Wf() && c in clients && clients[c].out != []
      ensures r.Wf()
    {
      this.(clients := clients[c := clients[c].(out := clients[c].out[1..])])
    }
  }

  /** q is r after the clients in `joined` registered, those in `dropped` were unregistered and
      those in `closed` were closed.  Clients are never forgotten and nobody else changes sides. */
  ghost predicate Moved(r: Registry, q: Registry, joined: set<ClientId>, dropped: set<ClientId>,
                        closed: set<ClientId>) {
    && r.Wf() && q.Wf()
    && q.clients.Keys == r.clients.Keys + joined
    && joined !! r.clients.Keys
    && (forall c :: c in joined ==> q.Registered(c) && q.clients[c].out == [] && !q.clients[c].done)
    && (forall c :: c in dropped ==> c in r.clients && r.Registered(c))
    && (forall c :: c in r.clients ==>
          && (q.Registered(c) <==> r.Registered(c) && c !in dropped)
          && q.clients[c].account == r.clients[c].account
          && q.clients[c].done == (r.clients[c].done || c in closed))
  }

  lemma AttachMoves(r: Registry, a: Account, c: ClientId)
    requires r.Wf() && a in r.subs && c !in r.clients
    ensures Moved(r, r.Attach(a, c), {c}, {}, {}) && r.Attach(a, c).clients[c].account == a
  {
  }

  lemma ClaimMoves(r: Registry, a: Account, c: ClientId, sub: SubId)
    requires r.Wf() && a !in r.subs && c !in r.clients && sub !in r.records
    ensures Moved(r, r.Claim(a, c, sub), {c}, {}, {}) && r.Claim(a, c, sub).clients[c].account == a
  {
  }

  lemma InstallMoves(r: Registry, a: Account, sub: SubId, k: Token)
    requires r.Wf() && sub in r.records
    ensures Moved(r, r.Install(a, sub, k), {}, {}, {})
  {
  }

  lemma AbandonMoves(r: Registry, a: Account, sub: SubId)
    requires r.Wf() && sub in r.records
    ensures Moved(r, r.Abandon(a, sub).0, {}, r.Abandon(a, sub).1, {})
  {
  }

  lemma RemoveMoves(r: Registry, c: ClientId)
    requires r.Wf() && c in r.clients
    ensures Moved(r, r.Remove(c).0, {}, if r.Registered(c) then {c} else {}, {})
  {
  }

  lemma DeliverMoves(cfg: Config, r: Registry, a: Account, p: Payload)
    requires r.Wf()
    ensures Moved(r, r.Deliver(cfg, a, p).0, {}, r.Slow(cfg, a), {})
  {
  }

  /** What a message of account a does to a socket: one with room keeps its place and gets p behind
      what it has; one with a full buffer is unregistered and gets nothing. */
  ghost predicate Reaches(cfg: Config, r: Registry, q: Registry, a: Account, p: Payload, c: ClientId) {
    r.Registered(c) && r.clients[c].account == a ==>
      && c in q.clients
      && (q.Registered(c) <==> |r.clients[c].out| < cfg.sendBuffer)
      && q.clients[c].out == (if |r.clients[c].out| < cfg.sendBuffer then r.clients[c].out + [p] else r.clients[c].out)
  }

  /** Sockets of other accounts and unregistered ones are left alone. */
  ghost predicate Spared(r: Registry, q: Registry, a: Account, c: ClientId) {
    c in r.clients && !(r.Registered(c) && r.clients[c].account == a) ==>
      c in q.clients && q.clients[c] == r.clients[c] && (q.Registered(c) <==> r.Registered(c))
  }

  lemma DeliverReaches(cfg: Config, r: Registry, a: Account, p: Payload, c: ClientId)
    requires r.Wf()
    ensures Reaches(cfg, r, r.Deliver(cfg, a, p).0, a, p, c)
    ensures Spared(r, r.Deliver(cfg, a, p).0, a, c)
  {
  }

  lemma DeliverReachesAll(cfg: Config, r: Registry, a: Account, p: Payload)
    requires r.Wf()
    ensures forall c :: Reaches(cfg, r, r.Deliver(cfg, a, p).0, a, p, c) && Spared(r, r.Deliver(cfg, a, p).0, a, c)
  {
    forall c ensures Reaches(cfg, r, r.Deliver(cfg, a, p).0, a, p, c) && Spared(r, r.Deliver(cfg, a, p).0, a, c) {
      DeliverReaches(cfg, r, a, p, c);
    }
  }

  /** The cancel that remove gives back is that of the entry it deleted. */
  lemma RemoveFeeds(r: Registry, c: ClientId)
    requires r.Wf() && c in r.clients
    ensures var (q, cancel) := r.Remove(c); var own := r.clients[c].account;
      && (cancel.Some? ==> r.Feeds(own, cancel.value) && own !in q.subs)
      && (forall a, k :: q.Feeds(a, k) <==> r.Feeds(a, k) && !(a == own && cancel == Some(k)))
  {
  }

  lemma DeliverFeeds(cfg: Config, r: Registry, a: Account, p: Payload)
    requires r.Wf()
    ensures var (q, cancels) := r.Deliver(cfg, a, p);
      && |cancels| <= 1
      && (forall k :: k in cancels ==> r.Feeds(a, k) && a !in q.subs)
      && (forall b, k :: q.Feeds(b, k) <==> r.Feeds(b, k) && !(b == a && k in cancels))
  {
  }

  /** Removing the sockets of a set one at a time is removing the set. */
  lemma WithoutOneMore(r: Registry, a: Account, gone: set<ClientId>, c: ClientId)
    requires r.Wf() && a in r.subs
    requires gone + {c} <= r.records[r.subs[a]].clients && c !in gone
    ensures var q := r.Without(a, gone);
      && c in q.clients && a in q.subs
      && q.Remove(c).0 == r.Without(a, gone + {c})
      && q.Remove(c).1 == if a in q.Remove(c).0.subs then None else r.records[r.subs[a]].cancel
  {
    var members := r.records[r.subs[a]].clients;
    assert members - gone - {c} == members - (gone + {c});
    assert c in members - gone;
  }
}
