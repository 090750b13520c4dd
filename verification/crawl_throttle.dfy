/** The shared pace of dev/bulkseed/lib/crawl.py.  Every method holds the lock, so workers interleave
    whole calls; the clock's readings are arguments. */
module CrawlThrottle {
  import opened CrawlWindows

  datatype Pace = Pace(interval: real, next: real, penalty: real, strikes: nat)

  datatype Call = Wait(now: real) | Blocked | Succeeded

  /** A request may leave at `due`; `interval` is what held when it was given its place. */
  datatype Reservation = Reservation(now: real, due: real, interval: real)

  function Min(a: real, b: real): real {
    if a < b then a else b
  }

  function Max(a: real, b: real): real {
    if a < b then b else a
  }

  function Due(p: Pace, now: real): real {
    Max(p.next, now + p.penalty)
  }

  function Apply(p: Pace, call: Call): Pace {
    match call
    case Wait(now) => p.(next := Due(p, now) + p.interval, penalty := 0.0)
    case Blocked =>
      Pace(Min(4.0, p.interval * 1.6), p.next, Min(90.0, 15.0 * (p.strikes + 1) as real), p.strikes + 1)
    case Succeeded => p.(strikes := 0)
  }

  /** The place a call is given, if it is a Wait. */
  function Given(p: Pace, call: Call): seq<Reservation> {
    if call.Wait? then [Reservation(call.now, Due(p, call.now), p.interval)] else []
  }

  /** The state after some calls, and what the Wait calls among them were given. */
  function Play(p: Pace, calls: seq<Call>): (Pace, seq<Reservation>) {
    if calls == [] then (p, [])
    else
      var n := |calls| - 1;
      var (q, rs) := Play(p, calls[..n]);
      (Apply(q, calls[n]), rs + Given(q, calls[n]))
  }

  function Start(interval: real): Pace {
    Pace(interval, 0.0, 0.0, 0)
  }

  class Throttle {
    var interval: real
    var next: real
    var penalty: real
    var strikes: nat

    ghost function State(): Pace
      reads this
    {
      Pace(interval, next, penalty, strikes)
    }

    constructor (interval: real)
      ensures State() == Start(interval)
    {
      this.interval, next, penalty, strikes := interval, 0.0, 0.0, 0;
    }

    /** `later` is the clock when the lock has been let go. */
    method Wait(now: real, later: real) returns (delay: real)
      modifies this
      ensures State() == Apply(old(State()), Call.Wait(now))
      ensures delay >= 0.0 && later + delay >= Due(old(State()), now)
      ensures delay > 0.0 ==> later + delay == Due(old(State()), now)
    {
      var due := Max(next, now + penalty);
      next := due + interval;
      penalty := 0.0;
      delay := Max(0.0, due - later);
    }

    method Blocked() returns (held: real)
      modifies this
      ensures State() == Apply(old(State()), Call.Blocked) && held == penalty
    {
      strikes := strikes + 1;
      interval := Min(4.0, interval * 1.6);
      penalty := Min(90.0, 15.0 * strikes as real);
      return penalty;
    }

    method Ok()
      modifies this`strikes
      ensures State() == Apply(old(State()), Succeeded)
    {
      strikes := 0;
    }
  }

  // --------------------------------------------------------------------------------- the pace

  function Blocks(calls: seq<Call>): nat {
    if calls == [] then 0
    else Blocks(calls[..|calls| - 1]) + if calls[|calls| - 1].Blocked? then 1 else 0
  }

  /** x times 1.6 to the k. */
  function Scaled(x: real, k: nat): real {
    if k == 0 then x else Scaled(x, k - 1) * 1.6
  }

  /** The pace after k blocks. */
  function Widened(x: real, k: nat): real {
    if k == 0 then x else Min(4.0, Scaled(x, k))
  }

  lemma OneWider(x: real, k: nat)
    ensures Min(4.0, Widened(x, k) * 1.6) == Widened(x, k + 1)
  {
    assert Scaled(x, k + 1) == Scaled(x, k) * 1.6;
    if k == 0 {
      assert Scaled(x, k) == x;
    }
  }

  /** However the calls fall, k blocks leave the interval at 1.6^k times what it was, but at most 4. */
  lemma {:induction false} IntervalAfter(p: Pace, calls: seq<Call>)
    ensures Play(p, calls).0.interval == Widened(p.interval, Blocks(calls))
  {
    if calls != [] {
      var n := |calls| - 1;
      IntervalAfter(p, calls[..n]);
      OneWider(p.interval, Blocks(calls[..n]));
    }
  }

  /** A block widens the pace exactly when it was under the cap; above the cap it quickens it. */
  lemma BlockWidensIff(p: Pace)
    requires p.interval > 0.0
    ensures Apply(p, Blocked).interval > p.interval <==> p.interval < 4.0
    ensures Apply(p, Blocked).interval >= p.interval <==> p.interval <= 4.0
  {
  }

  /** What holds after any calls: the interval never falls under the first one or the cap, and the
      next place is an interval after the last one given. */
  ghost predicate PlayedOk(first: real, p: Pace, rs: seq<Reservation>) {
    && p.interval >= Min(4.0, first)
    && (forall i :: 0 <= i < |rs| ==> rs[i].interval >= Min(4.0, first))
    && (forall i :: 0 < i < |rs| ==> rs[i].due >= rs[i - 1].due + rs[i - 1].interval)
    && (rs != [] ==> p.next == rs[|rs| - 1].due + rs[|rs| - 1].interval)
    && (forall i :: 0 <= i < |rs| ==> rs[i].due >= rs[i].now)
    && p.penalty >= 0.0
  }

  lemma WaitKeeps(first: real, p: Pace, rs: seq<Reservation>, now: real)
    requires first > 0.0 && PlayedOk(first, p, rs)
    ensures PlayedOk(first, Apply(p, Wait(now)), rs + [Reservation(now, Due(p, now), p.interval)])
  {
    var one := Reservation(now, Due(p, now), p.interval);
    assert one.due >= p.next && one.due >= now;
    assert (rs + [one])[|rs|] == one;
  }

  lemma BlockedKeeps(first: real, p: Pace, rs: seq<Reservation>)
    requires first > 0.0 && PlayedOk(first, p, rs)
    ensures PlayedOk(first, Apply(p, Blocked), rs)
  {
  }

  lemma {:induction false} PlayKeeps(first: real, calls: seq<Call>)
    requires first > 0.0
    ensures PlayedOk(first, Play(Start(first), calls).0, Play(Start(first), calls).1)
  {
    if calls != [] {
      var n := |calls| - 1;
      PlayKeeps(first, calls[..n]);
      var (p, rs) := Play(Start(first), calls[..n]);
      assert rs + [] == rs;
      match calls[n]
      case Wait(now) => WaitKeeps(first, p, rs, now);
      case Blocked => BlockedKeeps(first, p, rs);
      case Succeeded =>
    }
  }

  function Dues(rs: seq<Reservation>): (ts: seq<real>)
    ensures |ts| == |rs| && forall i :: 0 <= i < |rs| ==> ts[i] == rs[i].due
  {
    seq(|rs|, i requires 0 <= i < |rs| => rs[i].due)
  }

  /** Requests of all workers together leave at least the interval in force apart. */
  lemma RequestsAreSpaced(first: real, calls: seq<Call>, i: nat)
    requires first > 0.0 && i + 1 < |Play(Start(first), calls).1|
    ensures var rs := Play(Start(first), calls).1;
      rs[i + 1].due >= rs[i].due + rs[i].interval && rs[i].interval >= Min(4.0, first)
  {
    PlayKeeps(first, calls);
    assert Play(Start(first), calls).1[i + 1 - 1] == Play(Start(first), calls).1[i];
  }

  /** Any window of w seconds holds a bounded number of the places given. */
  lemma PlacesInAWindow(first: real, calls: seq<Call>, from: real, w: real)
    requires first > 0.0 && w >= 0.0
    ensures Within(Dues(Play(Start(first), calls).1), from, from + w) <= (w / Min(4.0, first)).Floor + 1
  {
    PlayKeeps(first, calls);
    var ts := Dues(Play(Start(first), calls).1);
    assert Spaced(ts, Min(4.0, first));
    WindowBound(ts, Min(4.0, first), from, w);
  }

  /** Each request left at its place or up to `late` seconds after it. */
  ghost predicate LeftBy(rs: seq<Reservation>, left: seq<real>, late: real) {
    |left| == |rs| && forall i :: 0 <= i < |rs| ==> rs[i].due <= left[i] <= rs[i].due + late
  }

  lemma {:induction false} LateWindow(rs: seq<Reservation>, left: seq<real>, late: real, from: real, to: real)
    requires LeftBy(rs, left, late)
    ensures Within(left, from, to) <= Within(Dues(rs), from - late, to)
  {
    if left != [] {
      var n := |left| - 1;
      LateWindow(rs[..n], left[..n], late, from, to);
      assert Dues(rs)[..n] == Dues(rs[..n]);
    }
  }

  /** However the workers wake up, at most `late` seconds after their places: any window of w seconds
      holds at most (w + late)/d + 1 requests, d the smaller of the first interval and 4. */
  lemma RequestsInAWindow(first: real, calls: seq<Call>, left: seq<real>, late: real, from: real, w: real)
    requires first > 0.0 && w >= 0.0 && late >= 0.0 && LeftBy(Play(Start(first), calls).1, left, late)
    ensures Within(left, from, from + w) <= ((w + late) / Min(4.0, first)).Floor + 1
  {
    LateWindow(Play(Start(first), calls).1, left, late, from, from + w);
    PlacesInAWindow(first, calls, from - late, w + late);
    assert from - late + (w + late) == from + w;
  }

  // ------------------------------------------------------------------------------- the cooldown

  predicate Steady(calls: seq<Call>) {
    forall c :: c in calls ==> c.Succeeded?
  }

  lemma OneStrike(p: Pace, call: Call)
    requires !call.Succeeded?
    ensures Apply(p, call).strikes == p.strikes + if call.Blocked? then 1 else 0
  {
  }

  /** Until a success, strikes count blocks. */
  lemma {:induction false} StrikesCountBlocks(first: real, calls: seq<Call>, more: seq<Call>)
    requires forall c :: c in more ==> !c.Succeeded?
    ensures Play(Start(first), calls + more).0.strikes == Play(Start(first), calls).0.strikes + Blocks(more)
    decreases |more|
  {
    if more == [] {
      assert calls + more == calls;
    } else {
      var n := |more| - 1;
      assert more[n] in more;
      StrikesCountBlocks(first, calls, more[..n]);
      assert calls + more == calls + more[..n] + [more[n]];
      PlaySnoc(Start(first), calls + more[..n], more[n]);
      OneStrike(Play(Start(first), calls + more[..n]).0, more[n]);
    }
  }

  /** Successes leave everything but the strikes as it was. */
  lemma {:induction false} Quiet(first: real, calls: seq<Call>, between: seq<Call>)
    requires Steady(between)
    ensures var p, q := Play(Start(first), calls), Play(Start(first), calls + between);
      q.1 == p.1 && q.0 == p.0.(strikes := q.0.strikes)
    decreases |between|
  {
    if between == [] {
      assert calls + between == calls;
    } else {
      var n := |between| - 1;
      assert between[n] in between;
      Quiet(first, calls, between[..n]);
      assert (calls + between)[..|calls + between| - 1] == calls + between[..n];
    }
  }

  function Cooldown(strikes: nat): real {
    Min(90.0, 15.0 * strikes as real)
  }

  /** Fifteen seconds a strike, and no more from the sixth on. */
  lemma CooldownIs(strikes: nat)
    ensures Cooldown(strikes) == if strikes < 6 then 15.0 * strikes as real else 90.0
  {
  }

  lemma StrikesSinceSuccess(first: real, calls: seq<Call>, since: seq<Call>)
    requires forall c :: c in since ==> !c.Succeeded?
    requires calls == [] || calls[|calls| - 1].Succeeded?
    ensures Play(Start(first), calls + since).0.strikes == Blocks(since)
  {
    StrikesCountBlocks(first, calls, since);
    assert Play(Start(first), calls).0.strikes == 0;
  }

  lemma BlockSetsCooldown(first: real, calls: seq<Call>)
    ensures Play(Start(first), calls + [Blocked]).0.penalty == Cooldown(Play(Start(first), calls).0.strikes + 1)
  {
    PlaySnoc(Start(first), calls, Blocked);
  }

  /** The cooldown to serve comes from the last block: 15 seconds for each block since the last
      success before it, but at most 90; a success in between does not lift it. */
  lemma CooldownAfterBlocks(first: real, calls: seq<Call>, since: seq<Call>, between: seq<Call>)
    requires Steady(between) && forall c :: c in since ==> !c.Succeeded?
    requires calls == [] || calls[|calls| - 1].Succeeded?
    ensures Play(Start(first), calls + since + [Blocked] + between).0.penalty == Cooldown(Blocks(since) + 1)
  {
    StrikesSinceSuccess(first, calls, since);
    BlockSetsCooldown(first, calls + since);
    Quiet(first, calls + since + [Blocked], between);
  }

  /** Nothing is left to serve once a request was given its place, until the next block. */
  lemma CooldownAfterWait(first: real, calls: seq<Call>, now: real, between: seq<Call>)
    requires Steady(between)
    ensures Play(Start(first), calls + [Wait(now)] + between).0.penalty == 0.0
  {
    PlaySnoc(Start(first), calls, Wait(now));
    Quiet(first, calls + [Wait(now)], between);
  }

  lemma WaitGives(first: real, calls: seq<Call>, now: real)
    ensures var (p, rs) := Play(Start(first), calls);
      var one := Reservation(now, Max(p.next, now + p.penalty), p.interval);
      Play(Start(first), calls + [Wait(now)]) == (Pace(p.interval, one.due + p.interval, 0.0, p.strikes), rs + [one])
  {
    PlaySnoc(Start(first), calls, Wait(now));
  }

  /** A request's place is the first after both its turn and the cooldown; the next one's has no
      cooldown unless there was another block. */
  lemma CooldownServedOnce(first: real, calls: seq<Call>, now: real, between: seq<Call>, later: real)
    requires Steady(between)
    ensures var (p, rs) := Play(Start(first), calls);
      var one := Reservation(now, Max(p.next, now + p.penalty), p.interval);
      Play(Start(first), calls + [Wait(now)] + between + [Wait(later)]).1 ==
      rs + [one] + [Reservation(later, Max(one.due + p.interval, later), p.interval)]
  {
    WaitGives(first, calls, now);
    Quiet(first, calls + [Wait(now)], between);
    WaitGives(first, calls + [Wait(now)] + between, later);
  }

  lemma PlaySnoc(p: Pace, calls: seq<Call>, call: Call)
    ensures var (q, rs) := Play(p, calls);
      Play(p, calls + [call]) == (Apply(q, call), rs + Given(q, call))
  {
    assert (calls + [call])[..|calls|] == calls;
  }
}
