/**
 The hub itself: the fields of hub.go's Hub and its critical sections as code.  Every method leaves
 the registry as the matching function of HubRegistry says.  The records behind the hub's pointers
 are kept in maps from identifiers; an identifier passed in stands for a freshly allocated record.
 */
module HubServer {
  import opened Wrappers
  import opened HubRegistry

  /** How the first critical section of Join ends. */
  datatype Entered = TooManySockets | Attached | Claimed

  class Hub {
    const cfg: Config
    var subs: map<Account, SubId>
    var records: map<SubId, AccountSub>
    var clients: map<ClientId, Client>

    ghost function Reg(): Registry
      reads this
    {
      Registry(subs, records, clients)
    }

    constructor (cfg: Config)
      ensures this.cfg == cfg && Reg() == Registry(map[], map[], map[]) && Reg().Wf()
    {
      this.cfg := cfg;
      subs, records, clients := map[], map[], map[];
    }

    method JoinEnter(a: Account, c: ClientId, sub: SubId) returns (r: Entered)
      requires Reg().Wf() && c !in clients && sub !in records
      modifies this
      ensures Reg().Wf()
      ensures match r
              case TooManySockets =>
                a in old(subs) && |old(records)[old(subs)[a]].clients| >= cfg.maxPerAccount && Reg() == old(Reg())
              case Attached =>
                && a in old(subs) && |old(records)[old(subs)[a]].clients| < cfg.maxPerAccount
                && Reg() == old(Reg()).Attach(a, c)
              case Claimed => a !in old(subs) && Reg() == old(Reg()).Claim(a, c, sub)
    {
      if a in subs {
        var entry := records[subs[a]];
        if |entry.clients| >= cfg.maxPerAccount {
          return TooManySockets;
        }
        clients := clients[c := Client(a, [], false)];
        records := records[subs[a] := entry.(clients := entry.clients + {c})];
        return Attached;
      }
      clients := clients[c := Client(a, [], false)];
      records := records[sub := AccountSub({c}, None)];
      subs := subs[a := sub];
      return Claimed;
    }

    method JoinInstall(a: Account, sub: SubId, k: Token) returns (installed: bool)
      requires Reg().Wf() && sub in records
      modifies this
      ensures Reg() == old(Reg()).Install(a, sub, k) && installed == old(Reg()).Current(a, sub)
    {
      installed := a in subs && subs[a] == sub;
      if installed {
        records := records[sub := records[sub].(cancel := Some(k))];
      }
    }

    method JoinAbandon(a: Account, sub: SubId) returns (stranded: seq<ClientId>)
      requires Reg().Wf() && sub in records
      modifies this
      ensures (Reg(), Elems(stranded)) == old(Reg()).Abandon(a, sub)
      ensures forall i, j :: 0 <= i < j < |stranded| ==> stranded[i] != stranded[j]
    {
      stranded := [];
      if a in subs && subs[a] == sub {
        var rest := records[sub].clients;
        while rest != {}
          modifies {}
          invariant Elems(stranded) + rest == records[sub].clients
          invariant Elems(stranded) !! rest
          invariant forall i, j :: 0 <= i < j < |stranded| ==> stranded[i] != stranded[j]
        {
          var other := Pick(rest);
          stranded, rest := stranded + [other], rest - {other};
        }
        assert Elems(stranded) == records[sub].clients;
        subs := subs - {a};
      }
    }

    method Remove(c: ClientId) returns (cancel: Option<Token>)
      requires Reg().Wf() && c in clients
      modifies this
      ensures (Reg(), cancel) == old(Reg()).Remove(c)
    {
      var a := clients[c].account;
      if a !in subs {
        return None;
      }
      var entry := records[subs[a]];
      if c !in entry.clients {
        return None;
      }
      records := records[subs[a] := entry.(clients := entry.clients - {c})];
      if |entry.clients - {c}| > 0 {
        return None;
      }
      subs := subs - {a};
      return entry.cancel;
    }

    /** The loop of dispatch that offers p to every socket and notes those that are full. */
    method Send(a: Account, p: Payload) returns (dropped: seq<ClientId>)
      requires Reg().Wf() && a in subs
      modifies this`clients
      ensures Reg() == old(Reg()).Send(cfg, a, p)
      ensures Elems(dropped) == old(Reg()).Slow(cfg, a)
      ensures forall c :: c in dropped <==> c in records[subs[a]].clients && |old(clients)[c].out| >= cfg.sendBuffer
      ensures forall i, j :: 0 <= i < j < |dropped| ==> dropped[i] != dropped[j]
    {
      ghost var r := Reg();
      ghost var slow := r.Slow(cfg, a);
      var members := records[subs[a]].clients;
      var rest := members;
      dropped := [];
      while rest != {}
        modifies this`clients
        invariant rest <= members && clients.Keys == r.clients.Keys
        invariant Elems(dropped) == slow - rest
        invariant forall i, j :: 0 <= i < j < |dropped| ==> dropped[i] != dropped[j]
        invariant forall c :: c in clients ==>
                    clients[c] == if c in members - rest - slow
                                  then r.clients[c].(out := r.clients[c].out + [p]) else r.clients[c]
      {
        var c := Pick(rest);
        assert clients[c] == r.clients[c];
        if |clients[c].out| < cfg.sendBuffer {
          clients := clients[c := clients[c].(out := clients[c].out + [p])];
        } else {
          assert Elems(dropped + [c]) == Elems(dropped) + {c};
          dropped := dropped + [c];
        }
        rest := rest - {c};
      }
      assert Elems(dropped) == slow;
      assert forall c :: c in dropped <==> c in Elems(dropped);
      assert forall c :: c in clients ==> clients[c] == r.Send(cfg, a, p).clients[c];
    }

    method Dispatch(a: Account, p: Payload) returns (dropped: seq<ClientId>, cancels: seq<Token>)
      requires Reg().Wf()
      modifies this
      ensures (Reg(), cancels) == old(Reg()).Deliver(cfg, a, p)
      ensures Elems(dropped) == old(Reg()).Slow(cfg, a)
      ensures forall c :: Reaches(cfg, old(Reg()), Reg(), a, p, c) && Spared(old(Reg()), Reg(), a, c)
    {
      ghost var r := Reg();
      DeliverReachesAll(cfg, r, a, p);
      dropped, cancels := [], [];
      if a !in subs {
        return;
      }
      dropped := Send(a, p);
      ghost var sent := Reg();
      ghost var members := records[subs[a]].clients;
      ghost var cancel0 := records[subs[a]].cancel;
      assert members - {} == members;
      for i := 0 to |dropped|
        invariant Reg().Wf()
        invariant Reg() == sent.Without(a, Elems(dropped[..i]))
        invariant cancels == if a !in subs && cancel0.Some? then [cancel0.value] else []
      {
        assert Elems(dropped) <= members;
        WithoutOneMore(sent, a, Elems(dropped[..i]), dropped[i]);
        var cancel := Remove(dropped[i]);
        if cancel.Some? {
          cancels := cancels + [cancel.value];
        }
        assert Elems(dropped[..i + 1]) == Elems(dropped[..i]) + {dropped[i]};
      }
      assert dropped[..|dropped|] == dropped;
      assert Reg() == r.Deliver(cfg, a, p).0;
    }

    /** Leave, when nobody takes the mutex between its parts; the caller then calls the cancel. */
    method Leave(c: ClientId) returns (cancel: Option<Token>)
      requires Reg().Wf() && c in clients
      modifies this
      ensures Reg() == old(Reg()).Remove(c).0.Close(c) && cancel == old(Reg()).Remove(c).1
    {
      cancel := Remove(c);
      Close(c);
    }

    method Close(c: ClientId)
      requires Reg().Wf() && c in clients
      modifies this
      ensures Reg() == old(Reg()).Close(c)
    {
      clients := clients[c := clients[c].(done := true)];
    }

    /** The number of registered sockets: sets of different accounts never share one. */
    method Count() returns (n: nat)
      requires Reg().Wf()
      ensures n == |set c | c in clients && Reg().Registered(c)|
    {
      n := 0;
      var rest := subs.Keys;
      ghost var counted: set<ClientId> := {};
      while rest != {}
        modifies {}
        invariant rest <= subs.Keys && n == |counted|
        invariant forall c :: c in counted <==> c in clients && Reg().Registered(c) && clients[c].account !in rest
      {
        var a := Pick(rest);
        var members := records[subs[a]].clients;
        n := n + |members|;
        assert forall c :: c in members <==> c in clients && Reg().Registered(c) && clients[c].account == a;
        assert forall c :: c in counted ==> clients[c].account != a;
        assert forall c :: c in members ==> clients[c].account == a;
        assert counted !! members;
        counted, rest := counted + members, rest - {a};
      }
      ghost var all := set c | c in clients && Reg().Registered(c);
      assert forall c :: c in counted <==> c in all;
      assert counted == all;
    }
  }
}
