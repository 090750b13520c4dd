/** The proxy pool of dev/bulkseed/lib/crawl.py.  Every method holds the lock, so workers interleave
    whole scans and benchings; the clock's readings are arguments. */
module CrawlProxies {
  import opened Wrappers
  import opened Modular
  import opened CrawlWindows

  function TimeOf(ready: map<string, real>, url: string): real {
    if url in ready then ready[url] else 0.0
  }

  datatype Pool = Pool(urls: seq<string>, perProxy: real, i: nat, ready: map<string, real>) {
    function ReadyAt(url: string): real {
      TimeOf(ready, url)
    }

    function Cursor(j: nat): string
      requires urls != []
    {
      urls[(i + j) % |urls|]
    }
  }

  /** One pass of take's inner loop, over at most `left` addresses from the cursor on. */
  function Scan(p: Pool, now: real, left: nat): (Pool, Option<string>)
    requires p.urls != []
    decreases left
  {
    if left == 0 then (p, None)
    else
      var url := p.Cursor(0);
      var q := p.(i := p.i + 1);
      if p.ReadyAt(url) <= now then (q.(ready := p.ready[url := now + p.perProxy]), Some(url))
      else Scan(q, now, left - 1)
  }

  /** The first address due, in the order of the cursor, is handed out and set aside. */
  ghost predicate FirstDue(p: Pool, now: real, j: nat, q: Pool, url: string)
    requires p.urls != []
  {
    && url == p.Cursor(j) && p.ReadyAt(url) <= now
    && (forall k: nat :: k < j ==> p.ReadyAt(p.Cursor(k)) > now)
    && q == p.(i := p.i + j + 1, ready := p.ready[url := now + p.perProxy])
  }

  lemma {:induction false} ScanFinds(p: Pool, now: real, left: nat)
    requires p.urls != []
    ensures var (q, got) := Scan(p, now, left);
      match got
      case Some(url) => exists j: nat :: j < left && FirstDue(p, now, j, q, url)
      case None => q == p.(i := p.i + left) && forall k: nat :: k < left ==> p.ReadyAt(p.Cursor(k)) > now
    decreases left
  {
    if left != 0 {
      var url := p.Cursor(0);
      var (q, got) := Scan(p, now, left);
      if p.ReadyAt(url) <= now {
        assert FirstDue(p, now, 0, q, url);
      } else {
        var next := p.(i := p.i + 1);
        ScanFinds(next, now, left - 1);
        assert forall k: nat :: next.Cursor(k) == p.Cursor(k + 1);
        forall k: nat | k < left ensures got.None? ==> p.ReadyAt(p.Cursor(k)) > now {
          assert k > 0 ==> p.Cursor(k) == next.Cursor(k - 1);
        }
        if got.Some? {
          var j: nat :| j < left - 1 && FirstDue(next, now, j, q, got.value);
          forall k: nat | k < j + 1 ensures p.ReadyAt(p.Cursor(k)) > now {
            assert k > 0 ==> p.Cursor(k) == next.Cursor(k - 1);
          }
          assert FirstDue(p, now, j + 1, q, got.value);
        }
      }
    }
  }

  /** Since that many cursors in a row cover the pool, a full pass finds an address exactly when one
      is due. */
  lemma FoundIffDue(p: Pool, now: real)
    requires p.urls != []
    ensures Scan(p, now, |p.urls|).1.Some? <==> exists url :: url in p.urls && p.ReadyAt(url) <= now
    ensures Scan(p, now, |p.urls|).1.Some? ==>
              && Scan(p, now, |p.urls|).1.value in p.urls
              && p.ReadyAt(Scan(p, now, |p.urls|).1.value) <= now
  {
    ScanFinds(p, now, |p.urls|);
    if url :| url in p.urls && p.ReadyAt(url) <= now {
      var x :| 0 <= x < |p.urls| && p.urls[x] == url;
      var j: nat := (x - p.i) % |p.urls|;
      HitAt(p.i, |p.urls|, x, j);
      assert p.Cursor(j) == url;
    }
  }

  // ------------------------------------------------------------------------------------ the code

  function Ready(urls: seq<string>, ready: map<string, real>, now: real): nat {
    if urls == [] then 0
    else
      var n := |urls| - 1;
      Ready(urls[..n], ready, now) + if TimeOf(ready, urls[n]) <= now then 1 else 0
  }

  /** The places of the pool whose address is due. */
  ghost function DuePlaces(urls: seq<string>, ready: map<string, real>, now: real): set<nat> {
    set k: nat | k < |urls| && TimeOf(ready, urls[k]) <= now
  }

  lemma DuePlacesSnoc(urls: seq<string>, ready: map<string, real>, now: real)
    requires urls != []
    ensures var n := |urls| - 1;
      DuePlaces(urls, ready, now) ==
      DuePlaces(urls[..n], ready, now) + if TimeOf(ready, urls[n]) <= now then {n} else {}
  {
  }

  lemma {:induction false} ReadyCounts(urls: seq<string>, ready: map<string, real>, now: real)
    ensures Ready(urls, ready, now) == |DuePlaces(urls, ready, now)|
  {
    if urls == [] {
      assert DuePlaces(urls, ready, now) == {};
    } else {
      ReadyCounts(urls[..|urls| - 1], ready, now);
      DuePlacesSnoc(urls, ready, now);
    }
  }

  class Proxies {
    const urls: seq<string>
    const perProxy: real
    const benchSeconds: real
    var i: nat
    var ready: map<string, real>

    ghost function State(): Pool
      reads this
    {
      Pool(urls, perProxy, i, ready)
    }

    constructor (urls: seq<string>, perProxy: real, benchSeconds: real)
      ensures State() == Pool(urls, perProxy, 0, map[]) && this.benchSeconds == benchSeconds
    {
      this.urls, this.perProxy, this.benchSeconds, i, ready := urls, perProxy, benchSeconds, 0, map[];
    }

    method Look(now: real) returns (url: Option<string>)
      requires urls != []
      modifies this
      ensures (State(), url) == Scan(old(State()), now, |urls|)
    {
      for n := 0 to |urls|
        invariant Scan(old(State()), now, |urls|) == Scan(State(), now, |urls| - n)
      {
        var u := urls[i % |urls|];
        i := i + 1;
        if TimeOf(ready, u) <= now {
          ready := ready[u := now + perProxy];
          return Some(u);
        }
      }
      return None;
    }

    /** The least ready time on record. */
    method Soonest() returns (least: real)
      requires ready != map[]
      ensures exists u :: u in ready && ready[u] == least
      ensures forall u :: u in ready ==> least <= ready[u]
    {
      var rest := ready.Keys;
      var first :| first in rest;
      least := ready[first];
      while rest != {}
        invariant rest <= ready.Keys && exists u :: u in ready && ready[u] == least
        invariant forall u :: u in ready && u !in rest ==> least <= ready[u]
      {
        var u :| u in rest;
        if ready[u] < least {
          least := ready[u];
        }
        rest := rest - {u};
      }
    }

    /** Returns at once if an address is due, and otherwise sleeps until one is, waking up to `late`
        seconds late and at most a fifth of a second after that.  Every sleep takes at least a fifth
        of a second, so without other workers there are finitely many. */
    method Take(now: real, late: real) returns (url: Option<string>, at: real, ghost from: nat)
      requires now >= 0.0 && late >= 0.0
      modifies this
      ensures urls == [] ==> url == None && State() == old(State())
      ensures urls != [] ==>
                && url.Some? && at >= now && from % |urls| == old(i) % |urls|
                && (State(), url) == Scan(old(State()).(i := from), at, |urls|)
                && url.value in urls && TimeOf(old(ready), url.value) <= at
                && ready == old(ready)[url.value := at + perProxy]
      ensures (exists u :: u in urls && TimeOf(old(ready), u) <= now) ==> at == now
      ensures (forall u :: u in urls ==> TimeOf(old(ready), u) > now) ==>
                forall u :: u in urls ==> at <= TimeOf(old(ready), u) + 0.2 + late
    {
      url, at, from := None, now, i;
      if urls == [] {
        return;
      }
      while true
        invariant at >= now && ready == old(ready) && from == i && from % |urls| == old(i) % |urls|
        invariant at == now || forall u :: u in urls ==> TimeOf(ready, u) > now && at <= TimeOf(ready, u) + 0.2 + late
        decreases 5.0 * (TimeOf(ready, urls[0]) - at)
      {
        ghost var before := State();
        url := Look(at);
        if url.Some? {
          ScanFinds(before, at, |urls|);
          return;
        }
        NoneDue(before, at);
        var soonest := Soonest();
        at := at + (if soonest - at > 0.2 then soonest - at else 0.2) + late;
        from := i;
      }
    }

    method Bench(url: string, now: real, seconds: Option<real>, later: real) returns (free: nat)
      modifies this`ready
      ensures url == "" ==> State() == old(State()) && free == 0
      ensures url != "" ==>
                && ready == old(ready)[url := now + if seconds.None? then benchSeconds else seconds.value]
                && free == |DuePlaces(urls, ready, later)|
    {
      if url == "" {
        return 0;
      }
      ready := ready[url := now + if seconds.None? then benchSeconds else seconds.value];
      free := 0;
      for k := 0 to |urls|
        invariant free == Ready(urls[..k], ready, later)
      {
        assert urls[..k + 1][..k] == urls[..k];
        if TimeOf(ready, urls[k]) <= later {
          free := free + 1;
        }
      }
      assert urls[..|urls|] == urls;
      ReadyCounts(urls, ready, later);
    }
  }

  lemma NoneDue(p: Pool, now: real)
    requires p.urls != [] && Scan(p, now, |p.urls|).1.None? && now >= 0.0
    ensures p.ready != map[] && Scan(p, now, |p.urls|).0 == p.(i := p.i + |p.urls|)
    ensures (p.i + |p.urls|) % |p.urls| == p.i % |p.urls|
    ensures forall u :: u in p.urls ==> u in p.ready && p.ready[u] > now
  {
    ScanFinds(p, now, |p.urls|);
    FoundIffDue(p, now);
    assert p.urls[0] in p.urls;
    DivStep(p.i + |p.urls|, |p.urls|);
  }

  function Stand(p: Pool, url: string, now: real, seconds: real): Pool {
    p.(ready := p.ready[url := now + seconds])
  }

  // -------------------------------------------------------------------------------------- rates

  datatype Call = Scanned(now: real) | Benched(url: string, now: real, seconds: real)

  datatype Grant = Grant(url: string, at: real)

  function Next(p: Pool, call: Call): (Pool, seq<Grant>)
    requires p.urls != []
  {
    match call
    case Scanned(now) =>
      var (q, got) := Scan(p, now, |p.urls|);
      (q, if got.Some? then [Grant(got.value, now)] else [])
    case Benched(url, now, seconds) => (Stand(p, url, now, seconds), [])
  }

  /** What a call does to one address: it is granted only when due, and then set aside. */
  ghost predicate Changed(p: Pool, call: Call, q: Pool, more: seq<Grant>, url: string) {
    && q.urls == p.urls && q.perProxy == p.perProxy
    && |more| <= 1 && (more != [] ==> call.Scanned? && more[0].at == call.now)
    && q.ReadyAt(url) == (if more != [] && more[0].url == url then call.now + p.perProxy
                          else if call.Benched? && call.url == url then call.now + call.seconds
                          else p.ReadyAt(url))
    && (more != [] && more[0].url == url ==> p.ReadyAt(url) <= call.now)
  }

  lemma NextIs(p: Pool, call: Call, url: string)
    requires p.urls != []
    ensures Changed(p, call, Next(p, call).0, Next(p, call).1, url)
  {
    if call.Scanned? {
      var (q, got) := Scan(p, call.now, |p.urls|);
      ScanFinds(p, call.now, |p.urls|);
      if got.Some? {
        var j: nat :| j < |p.urls| && FirstDue(p, call.now, j, q, got.value);
      }
    }
  }

  /** The pool after some calls of any workers, and the addresses it handed out. */
  function Play(p: Pool, calls: seq<Call>): (r: (Pool, seq<Grant>))
    requires p.urls != []
    ensures r.0.urls == p.urls && r.0.perProxy == p.perProxy
  {
    if calls == [] then (p, [])
    else
      var n := |calls| - 1;
      var (q, log) := Play(p, calls[..n]);
      NextIs(q, calls[n], "");
      var (next, more) := Next(q, calls[n]);
      (next, log + more)
  }

  /** The clock never goes back. */
  ghost predicate InTime(calls: seq<Call>) {
    forall m, n :: 0 <= m < n < |calls| ==> calls[m].now <= calls[n].now
  }

  ghost predicate BenchedAtLeast(calls: seq<Call>, d: real) {
    forall c :: c in calls && c.Benched? ==> c.seconds >= d
  }

  /** When an address was handed out. */
  function TimesOf(log: seq<Grant>, url: string): seq<real> {
    if log == [] then []
    else
      var g := log[|log| - 1];
      TimesOf(log[..|log| - 1], url) + if g.url == url then [g.at] else []
  }

  ghost predicate Rested(p: Pool, ts: seq<real>, url: string) {
    Spaced(ts, p.perProxy) && (ts != [] ==> p.ReadyAt(url) >= ts[|ts| - 1] + p.perProxy)
  }

  lemma TimesGrow(log: seq<Grant>, more: seq<Grant>, url: string)
    requires |more| <= 1
    ensures TimesOf(log + more, url) ==
            TimesOf(log, url) + if more != [] && more[0].url == url then [more[0].at] else []
  {
    if more == [] {
      assert log + more == log;
    } else {
      assert (log + more)[..|log|] == log;
    }
  }

  lemma RestedKept(p: Pool, ts: seq<real>, url: string, call: Call, q: Pool, more: seq<Grant>)
    requires p.perProxy >= 0.0 && Rested(p, ts, url) && Changed(p, call, q, more, url)
    requires call.Benched? ==> call.seconds >= p.perProxy
    requires forall t :: t in ts ==> t <= call.now
    ensures Rested(q, ts + if more != [] && more[0].url == url then [more[0].at] else [], url)
  {
    assert ts != [] ==> ts[|ts| - 1] in ts;
  }

  lemma {:induction false} AddressesRest(p: Pool, calls: seq<Call>, url: string)
    requires p.urls != [] && p.perProxy >= 0.0 && InTime(calls) && BenchedAtLeast(calls, p.perProxy)
    ensures var (q, log) := Play(p, calls);
      && Rested(q, TimesOf(log, url), url)
      && forall t :: t in TimesOf(log, url) && calls != [] ==> t <= calls[|calls| - 1].now
  {
    if calls != [] {
      var n := |calls| - 1;
      var (was, log) := Play(p, calls[..n]);
      var ts := TimesOf(log, url);
      AddressesRest(p, calls[..n], url);
      forall t | t in ts ensures t <= calls[n].now {
        assert calls[..n] != [] ==> calls[..n][n - 1].now <= calls[n].now;
      }
      assert calls[n] in calls;
      NextIs(was, calls[n], url);
      RestedKept(was, ts, url, calls[n], Next(was, calls[n]).0, Next(was, calls[n]).1);
      TimesGrow(log, Next(was, calls[n]).1, url);
    }
  }

  /** Any window of w seconds holds at most w/perProxy + 1 requests through one address. */
  lemma RequestsPerAddress(p: Pool, calls: seq<Call>, url: string, from: real, w: real)
    requires p.urls != [] && p.perProxy > 0.0 && InTime(calls) && BenchedAtLeast(calls, p.perProxy) && w >= 0.0
    ensures Within(TimesOf(Play(p, calls).1, url), from, from + w) <= (w / p.perProxy).Floor + 1
  {
    AddressesRest(p, calls, url);
    WindowBound(TimesOf(Play(p, calls).1, url), p.perProxy, from, w);
  }

  /** All benchings last d: does every address then keep the pace, whatever the pool and the calls? */
  ghost predicate KeepsPace(perProxy: real, d: real) {
    forall urls: seq<string>, calls: seq<Call>, url ::
      urls != [] && InTime(calls) && (forall c :: c in calls && c.Benched? ==> c.seconds == d) ==>
        Spaced(TimesOf(Play(Pool(urls, perProxy, 0, map[]), calls).1, url), perProxy)
  }

  /** Exactly when a benching lasts at least as long as the pace: a shorter one overwrites the time
      that take set, and the address comes back early. */
  lemma PaceKeptIff(perProxy: real, d: real)
    requires perProxy > 0.0
    ensures KeepsPace(perProxy, d) <==> d >= perProxy
  {
    if d >= perProxy {
      forall urls: seq<string>, calls: seq<Call>, url |
        urls != [] && InTime(calls) && (forall c :: c in calls && c.Benched? ==> c.seconds == d)
        ensures Spaced(TimesOf(Play(Pool(urls, perProxy, 0, map[]), calls).1, url), perProxy)
      {
        AddressesRest(Pool(urls, perProxy, 0, map[]), calls, url);
      }
    } else {
      var soon := if d > 0.0 then d else 0.0;
      var first, second, third := Scanned(0.0), Benched("a", 0.0, d), Scanned(soon);
      EarlyReturn(perProxy, d, soon);
      assert InTime([first, second, third]);
    }
  }

  lemma EarlyReturn(perProxy: real, d: real, soon: real)
    requires perProxy > d && perProxy > 0.0 && soon == if d > 0.0 then d else 0.0
    ensures !Spaced(TimesOf(Play(Pool(["a"], perProxy, 0, map[]),
                                 [Scanned(0.0), Benched("a", 0.0, d), Scanned(soon)]).1, "a"), perProxy)
  {
    var log := [Grant("a", 0.0)] + [Grant("a", soon)];
    EarlyGrants(perProxy, d, soon);
    TimesGrow([], [Grant("a", 0.0)], "a");
    TimesGrow([Grant("a", 0.0)], [Grant("a", soon)], "a");
    var ts := TimesOf(log, "a");
    assert TimesOf([], "a") == [] && ts == [0.0, soon];
    assert !(ts[1] >= ts[1 - 1] + perProxy);
  }

  lemma OneAddress(p: Pool, now: real)
    requires |p.urls| == 1 && p.ReadyAt(p.urls[0]) <= now
    ensures Next(p, Scanned(now)) ==
            (p.(i := p.i + 1, ready := p.ready[p.urls[0] := now + p.perProxy]), [Grant(p.urls[0], now)])
  {
    assert p.i % 1 == 0;
    assert p.Cursor(0) == p.urls[0];
  }

  lemma EarlyGrants(perProxy: real, d: real, soon: real)
    requires soon >= d && soon >= 0.0
    ensures Play(Pool(["a"], perProxy, 0, map[]), [Scanned(0.0), Benched("a", 0.0, d), Scanned(soon)]).1 ==
            [Grant("a", 0.0)] + [Grant("a", soon)]
  {
    var p0 := Pool(["a"], perProxy, 0, map[]);
    OneAddress(p0, 0.0);
    var p1 := Next(p0, Scanned(0.0)).0;
    var p2 := Stand(p1, "a", 0.0, d);
    OneAddress(p2, soon);
    PlayTwo(p0, Scanned(0.0), Benched("a", 0.0, d));
    var two := [Scanned(0.0), Benched("a", 0.0, d)];
    PlaySnoc(p0, two, Scanned(soon));
    assert two + [Scanned(soon)] == [Scanned(0.0), Benched("a", 0.0, d), Scanned(soon)];
  }

  lemma PlayTwo(p: Pool, a: Call, b: Call)
    requires p.urls != []
    ensures var (p1, g1) := Next(p, a);
      && p1.urls == p.urls
      && Play(p, [a, b]) == (Next(p1, b).0, g1 + Next(p1, b).1)
  {
    NextIs(p, a, "");
    PlaySnoc(p, [], a);
    assert [] + [a] == [a] && [] + Next(p, a).1 == Next(p, a).1;
    PlaySnoc(p, [a], b);
    assert [a] + [b] == [a, b];
  }

  lemma PlaySnoc(p: Pool, calls: seq<Call>, call: Call)
    requires p.urls != []
    ensures var (q, log) := Play(p, calls);
      Play(p, calls + [call]) == (Next(q, call).0, log + Next(q, call).1)
  {
    assert (calls + [call])[..|calls|] == calls;
  }

  /** A benched address is not handed out before its time is up, unless it was benched anew. */
  lemma {:induction false} BenchedSitsOut(p: Pool, calls: seq<Call>, url: string, until: real)
    requires p.urls != [] && p.perProxy >= 0.0 && p.ReadyAt(url) >= until
    requires forall c :: c in calls && c.Benched? ==> c.url != url
    ensures Play(p, calls).0.ReadyAt(url) >= until
    ensures forall t :: t in TimesOf(Play(p, calls).1, url) ==> t >= until
  {
    if calls != [] {
      var n := |calls| - 1;
      var (was, log) := Play(p, calls[..n]);
      BenchedSitsOut(p, calls[..n], url, until);
      assert calls[n] in calls;
      NextIs(was, calls[n], url);
      TimesGrow(log, Next(was, calls[n]).1, url);
    }
  }
}
