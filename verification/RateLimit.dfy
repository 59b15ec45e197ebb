/**
  The per-client rate limiter of internal/endpoint/ratelimit.go: a map of token
  buckets that whichever client happens to call sweeps once in a while.  Times
  are exact seconds since Go's zero time, tokens are exact reals.
  */
module RateLimit {

  type Time = real

  const ZERO_TIME: Time := 0.0

  /** rps <= 0 turns limiting off (rate.Inf). */
  datatype Params = Params(rps: real, burst: int, ttl: Time) {
    predicate Unlimited() { rps <= 0.0 }

    /** An entry idle for longer than ttl has refilled by then, or nothing is ever granted anyway. */
    predicate RefillsWithinTTL() {
      Unlimited() || burst < 1 || ttl * rps >= burst as real
    }

    /** The bucket capacity, with a negative burst counted as an empty bucket. */
    function Capacity(): real { if burst < 0 then 0.0 else burst as real }
  }

  // ---------------------------------------------------------------------------
  // The token bucket, after the contract of golang.org/x/time/rate
  // ---------------------------------------------------------------------------

  datatype Bucket = Bucket(tokens: real, last: Time)

  function NewBucket(p: Params): Bucket { Bucket(p.burst as real, ZERO_TIME) }

  function Elapsed(last: Time, now: Time): Time {
    if now < last then 0.0 else now - last
  }

  /** The tokens that trickle in over a stretch of time (tokensFromDuration). */
  function Refill(p: Params, length: Time): real { length * p.rps }

  function Available(p: Params, b: Bucket, now: Time): real {
    var tokens := b.tokens + Refill(p, Elapsed(b.last, now));
    if tokens > p.burst as real then p.burst as real else tokens
  }

  /** AllowN(now, 1): a grant takes one token, a denial changes nothing. */
  function Take(p: Params, b: Bucket, now: Time): (Bucket, bool) {
    if p.Unlimited() then (b, true)
    else if 1 <= p.burst && Available(p, b, now) >= 1.0 then (Bucket(Available(p, b, now) - 1.0, now), true)
    else (b, false)
  }

  // ---------------------------------------------------------------------------
  // The limiter as a function on its state
  // ---------------------------------------------------------------------------

  datatype Visit = Visit(bucket: Bucket, lastSeen: Time)

  datatype Table = Table(visitors: map<string, Visit>, lastSweep: Time)

  datatype Call = Call(time: Time, key: string)

  const EmptyTable := Table(map[], ZERO_TIME)

  function Sweep(p: Params, t: Table, now: Time): Table {
    var since := if t.lastSweep == ZERO_TIME then now else t.lastSweep;
    if now - since > p.ttl then
      Table(map k | k in t.visitors && now - t.visitors[k].lastSeen <= p.ttl :: t.visitors[k], now)
    else
      Table(t.visitors, since)
  }

  function BucketOf(p: Params, t: Table, key: string): Bucket {
    if key in t.visitors then t.visitors[key].bucket else NewBucket(p)
  }

  function Step(p: Params, t: Table, c: Call): (Table, bool) {
    var swept := Sweep(p, t, c.time);
    var (bucket, ok) := Take(p, BucketOf(p, swept, c.key), c.time);
    (Table(swept.visitors[c.key := Visit(bucket, c.time)], swept.lastSweep), ok)
  }

  function After(p: Params, t: Table, calls: seq<Call>): Table
    decreases |calls|
  {
    if calls == [] then t else After(p, Step(p, t, calls[0]).0, calls[1..])
  }

  function Decisions(p: Params, t: Table, calls: seq<Call>): (ds: seq<bool>)
    ensures |ds| == |calls|
    decreases |calls|
  {
    if calls == [] then [] else
      var (t', ok) := Step(p, t, calls[0]);
      [ok] + Decisions(p, t', calls[1..])
  }

  // ---------------------------------------------------------------------------
  // Two reference limiters: one that never sweeps, and a single bucket on its own
  // ---------------------------------------------------------------------------

  type Buckets = map<string, Bucket>

  function Lookup(p: Params, u: Buckets, key: string): Bucket {
    if key in u then u[key] else NewBucket(p)
  }

  function UnsweptAfter(p: Params, u: Buckets, calls: seq<Call>): Buckets
    decreases |calls|
  {
    if calls == [] then u else
      UnsweptAfter(p, u[calls[0].key := Take(p, Lookup(p, u, calls[0].key), calls[0].time).0], calls[1..])
  }

  function UnsweptDecisions(p: Params, u: Buckets, calls: seq<Call>): (ds: seq<bool>)
    ensures |ds| == |calls|
    decreases |calls|
  {
    if calls == [] then [] else
      var (b, ok) := Take(p, Lookup(p, u, calls[0].key), calls[0].time);
      [ok] + UnsweptDecisions(p, u[calls[0].key := b], calls[1..])
  }

  function LoneDecisions(p: Params, b: Bucket, times: seq<Time>): seq<bool>
    decreases |times|
  {
    if times == [] then [] else
      var (b', ok) := Take(p, b, times[0]);
      [ok] + LoneDecisions(p, b', times[1..])
  }

  ghost predicate Monotone(calls: seq<Call>) {
    forall i, j :: 0 <= i < j < |calls| ==> calls[i].time <= calls[j].time
  }

  function TimesOf(key: string, calls: seq<Call>): seq<Time> {
    if calls == [] then []
    else (if calls[0].key == key then [calls[0].time] else []) + TimesOf(key, calls[1..])
  }

  function DecisionsOf(key: string, calls: seq<Call>, ds: seq<bool>): seq<bool>
    requires |calls| == |ds|
  {
    if calls == [] then []
    else (if calls[0].key == key then [ds[0]] else []) + DecisionsOf(key, calls[1..], ds[1..])
  }

  function Admitted(key: string, calls: seq<Call>, ds: seq<bool>): nat
    requires |calls| == |ds|
  {
    if calls == [] then 0
    else (if calls[0].key == key && ds[0] then 1 else 0) + Admitted(key, calls[1..], ds[1..])
  }

  // ---------------------------------------------------------------------------
  // Sweeping is invisible exactly when an idle entry refills within ttl
  // ---------------------------------------------------------------------------

  ghost predicate Full(p: Params, b: Bucket, now: Time) {
    Available(p, b, now) == p.burst as real
  }

  ghost predicate Interchangeable(p: Params, a: Bucket, b: Bucket, now: Time) {
    a == b || (Full(p, a, now) && Full(p, b, now))
  }

  /** A bucket is untouched since it was made, or was last taken from no later than it was last seen. */
  ghost predicate WellAged(p: Params, v: Visit) {
    v.bucket == NewBucket(p) || (v.bucket.tokens >= 0.0 && v.bucket.last <= v.lastSeen)
  }

  ghost predicate Simulates(p: Params, t: Table, u: Buckets, now: Time) {
    && (forall k :: k in t.visitors ==>
          && k in u && WellAged(p, t.visitors[k]) && t.visitors[k].lastSeen <= now
          && Interchangeable(p, t.visitors[k].bucket, u[k], now))
    && (forall k :: k in u && k !in t.visitors ==> Full(p, u[k], now))
  }

  lemma FullStaysFull(p: Params, b: Bucket, now: Time, later: Time)
    requires p.rps > 0.0 && Full(p, b, now) && now <= later
    ensures Full(p, b, later)
  {
    ElapsedGrows(p, b.last, now, later);
  }

  lemma ElapsedGrows(p: Params, last: Time, now: Time, later: Time)
    requires p.rps >= 0.0 && now <= later
    ensures Refill(p, Elapsed(last, now)) <= Refill(p, Elapsed(last, later))
    ensures Refill(p, Elapsed(last, later)) <= Refill(p, Elapsed(last, now)) + Refill(p, later - now)
  {
    var d := Elapsed(last, later) - Elapsed(last, now);
    assert 0.0 <= d <= later - now;
    Scaled(d, later - now, p.rps);
    Scaled(0.0, d, p.rps);
    assert Refill(p, Elapsed(last, later)) == Refill(p, Elapsed(last, now)) + d * p.rps;
  }

  lemma Scaled(a: real, b: real, c: real)
    requires a <= b && c >= 0.0
    ensures a * c <= b * c
  {
  }

  lemma NewIsFull(p: Params, now: Time)
    requires p.rps > 0.0
    ensures Full(p, NewBucket(p), now)
  {
    Scaled(0.0, Elapsed(ZERO_TIME, now), p.rps);
  }

  /** The heart of the matter: what the sweep deletes is full already. */
  lemma IdleIsFull(p: Params, v: Visit, now: Time)
    requires p.rps > 0.0 && p.burst >= 1 && p.ttl * p.rps >= p.burst as real
    requires WellAged(p, v) && now - v.lastSeen > p.ttl
    ensures Full(p, v.bucket, now)
  {
    if v.bucket == NewBucket(p) {
      NewIsFull(p, now);
    } else {
      assert p.ttl >= 0.0 by {
        if p.ttl < 0.0 { Scaled(p.ttl, 0.0, p.rps); }
      }
      assert Elapsed(v.bucket.last, now) == now - v.bucket.last > p.ttl;
      Scaled(p.ttl, Elapsed(v.bucket.last, now), p.rps);
      assert Refill(p, Elapsed(v.bucket.last, now)) >= p.burst as real;
    }
  }

  lemma SweepKeepsSimulation(p: Params, t: Table, u: Buckets, now: Time, later: Time)
    requires p.rps > 0.0 && p.burst >= 1 && p.ttl * p.rps >= p.burst as real
    requires Simulates(p, t, u, now) && now <= later
    ensures Simulates(p, Sweep(p, t, later), u, later)
  {
    var swept := Sweep(p, t, later);
    forall k | k in t.visitors
      ensures Interchangeable(p, t.visitors[k].bucket, u[k], later)
      ensures k !in swept.visitors ==> Full(p, u[k], later)
    {
      if t.visitors[k].bucket != u[k] {
        FullStaysFull(p, t.visitors[k].bucket, now, later);
        FullStaysFull(p, u[k], now, later);
      }
      if k !in swept.visitors {
        IdleIsFull(p, t.visitors[k], later);
      }
    }
    forall k | k in u && k !in t.visitors
      ensures Full(p, u[k], later)
    {
      FullStaysFull(p, u[k], now, later);
    }
  }

  lemma StepKeepsSimulation(p: Params, t: Table, u: Buckets, now: Time, c: Call)
    requires p.rps > 0.0 && p.burst >= 1 && p.ttl * p.rps >= p.burst as real
    requires Simulates(p, t, u, now) && now <= c.time
    ensures var (b, ok) := Take(p, Lookup(p, u, c.key), c.time);
            && Step(p, t, c).1 == ok
            && Simulates(p, Step(p, t, c).0, u[c.key := b], c.time)
  {
    SweepKeepsSimulation(p, t, u, now, c.time);
    var swept := Sweep(p, t, c.time);
    NewIsFull(p, c.time);
    var mine, theirs := BucketOf(p, swept, c.key), Lookup(p, u, c.key);
    assert Interchangeable(p, mine, theirs, c.time);
    var (b, ok) := Take(p, theirs, c.time);
    assert Take(p, mine, c.time) == (b, ok) by {
      if mine != theirs { assert Available(p, mine, c.time) == Available(p, theirs, c.time); }
    }
    var t' := Step(p, t, c).0;
    assert WellAged(p, t'.visitors[c.key]);
    assert forall k :: k in t'.visitors && k != c.key ==> t'.visitors[k] == swept.visitors[k];
  }

  lemma {:induction false} SimulatedDecisions(p: Params, t: Table, u: Buckets, now: Time, calls: seq<Call>)
    requires p.rps > 0.0 && p.burst >= 1 && p.ttl * p.rps >= p.burst as real
    requires Simulates(p, t, u, now) && Monotone(calls) && (calls != [] ==> now <= calls[0].time)
    ensures Decisions(p, t, calls) == UnsweptDecisions(p, u, calls)
    decreases |calls|
  {
    if calls != [] {
      var c := calls[0];
      StepKeepsSimulation(p, t, u, now, c);
      var b := Take(p, Lookup(p, u, c.key), c.time).0;
      SimulatedDecisions(p, Step(p, t, c).0, u[c.key := b], c.time, calls[1..]);
    }
  }

  /** Without a limit, or without room for one token, the answer never depends on the state. */
  lemma {:induction false} ConstantDecisions(p: Params, t: Table, u: Buckets, calls: seq<Call>)
    requires p.Unlimited() || p.burst < 1
    ensures Decisions(p, t, calls) == UnsweptDecisions(p, u, calls)
    decreases |calls|
  {
    if calls != [] {
      var b := Take(p, Lookup(p, u, calls[0].key), calls[0].time).0;
      ConstantDecisions(p, Step(p, t, calls[0]).0, u[calls[0].key := b], calls[1..]);
    }
  }

  lemma SweepingIsInvisible(p: Params, calls: seq<Call>)
    requires p.RefillsWithinTTL() && Monotone(calls)
    ensures Decisions(p, EmptyTable, calls) == UnsweptDecisions(p, map[], calls)
  {
    if p.Unlimited() || p.burst < 1 {
      ConstantDecisions(p, EmptyTable, map[], calls);
    } else {
      SimulatedDecisions(p, EmptyTable, map[], if calls == [] then 0.0 else calls[0].time, calls);
    }
  }

  // The converse: exhaust the burst, wait just longer than ttl, ask for a whole burst again.

  function Repeat(c: Call, n: nat): (calls: seq<Call>)
    ensures |calls| == n && forall i :: 0 <= i < n ==> calls[i] == c
  {
    if n == 0 then [] else [c] + Repeat(c, n - 1)
  }

  lemma {:induction false} SweptGrantsRepeats(p: Params, t: Table, c: Call, n: nat)
    requires p.rps > 0.0 && n <= p.burst
    requires n as real <= Available(p, BucketOf(p, t, c.key), c.time)
    ensures Decisions(p, t, Repeat(c, n)) == seq(n, _ => true)
    ensures n > 0 && t.lastSweep in {ZERO_TIME, c.time} ==> After(p, t, Repeat(c, n)).lastSweep == c.time
    ensures n > 0 ==> c.key in After(p, t, Repeat(c, n)).visitors
                      && After(p, t, Repeat(c, n)).visitors[c.key].lastSeen == c.time
    decreases n
  {
    if n > 0 {
      NewIsFull(p, c.time);
      var (t', ok) := Step(p, t, c);
      var mine := BucketOf(p, Sweep(p, t, c.time), c.key);
      assert Available(p, mine, c.time) >= n as real;
      assert ok && t'.visitors[c.key].bucket == Bucket(Available(p, mine, c.time) - 1.0, c.time);
      assert Available(p, BucketOf(p, t', c.key), c.time) >= (n - 1) as real;
      assert Repeat(c, n)[1..] == Repeat(c, n - 1);
      SweptGrantsRepeats(p, t', c, n - 1);
    }
  }

  lemma {:induction false} UnsweptDrainsRepeats(p: Params, u: Buckets, c: Call, n: nat)
    requires p.rps > 0.0 && n <= p.burst
    requires n as real <= Available(p, Lookup(p, u, c.key), c.time)
    ensures UnsweptDecisions(p, u, Repeat(c, n)) == seq(n, _ => true)
    ensures var b := Lookup(p, UnsweptAfter(p, u, Repeat(c, n)), c.key);
            Available(p, b, c.time) == Available(p, Lookup(p, u, c.key), c.time) - n as real
    ensures n > 0 ==> Lookup(p, UnsweptAfter(p, u, Repeat(c, n)), c.key).last == c.time
    decreases n
  {
    if n > 0 {
      var b := Take(p, Lookup(p, u, c.key), c.time).0;
      assert Available(p, b, c.time) == Available(p, Lookup(p, u, c.key), c.time) - 1.0;
      assert Repeat(c, n)[1..] == Repeat(c, n - 1);
      UnsweptDrainsRepeats(p, u[c.key := b], c, n - 1);
    }
  }

  lemma {:induction false} DecisionsConcat(p: Params, t: Table, xs: seq<Call>, ys: seq<Call>)
    ensures Decisions(p, t, xs + ys) == Decisions(p, t, xs) + Decisions(p, After(p, t, xs), ys)
    ensures After(p, t, xs + ys) == After(p, After(p, t, xs), ys)
    decreases |xs|
  {
    if xs == [] {
      assert xs + ys == ys;
    } else {
      assert (xs + ys)[1..] == xs[1..] + ys;
      DecisionsConcat(p, Step(p, t, xs[0]).0, xs[1..], ys);
    }
  }

  lemma {:induction false} UnsweptConcat(p: Params, u: Buckets, xs: seq<Call>, ys: seq<Call>)
    ensures UnsweptDecisions(p, u, xs + ys) ==
            UnsweptDecisions(p, u, xs) + UnsweptDecisions(p, UnsweptAfter(p, u, xs), ys)
    decreases |xs|
  {
    if xs == [] {
      assert xs + ys == ys;
    } else {
      assert (xs + ys)[1..] == xs[1..] + ys;
      UnsweptConcat(p, u[xs[0].key := Take(p, Lookup(p, u, xs[0].key), xs[0].time).0], xs[1..], ys);
    }
  }

  lemma {:induction false} AllAdmitted(c: Call, n: nat)
    ensures Admitted(c.key, Repeat(c, n), seq(n, _ => true)) == n
    decreases n
  {
    if n > 0 {
      assert Repeat(c, n)[1..] == Repeat(c, n - 1);
      assert seq(n, _ => true)[1..] == seq(n - 1, _ => true);
      AllAdmitted(c, n - 1);
    }
  }

  lemma HalfwayGap(p: Params) returns (gap: real)
    requires !p.RefillsWithinTTL()
    ensures p.rps > 0.0 && p.burst >= 1
    ensures gap > 0.0 && gap > p.ttl && Refill(p, gap) < p.burst as real
  {
    var refill := p.burst as real / p.rps;
    assert refill * p.rps == p.burst as real;
    var low := if p.ttl < 0.0 then 0.0 else p.ttl;
    assert low * p.rps < refill * p.rps;
    assert low < refill by {
      if low >= refill { Scaled(refill, low, p.rps); }
    }
    gap := (low + refill) / 2.0;
    assert gap * p.rps == (low * p.rps + refill * p.rps) / 2.0;
  }

  /** Swept, a second burst is granted whole: the first call of it deletes the spent bucket. */
  lemma SecondBurstSwept(p: Params, first: Call, second: Call)
    requires p.rps > 0.0 && p.burst >= 1 && first.key == second.key && first.time != ZERO_TIME
    requires second.time - first.time > p.ttl
    ensures Decisions(p, After(p, EmptyTable, Repeat(first, p.burst)), Repeat(second, p.burst))
            == seq(p.burst, _ => true)
  {
    NewIsFull(p, first.time);
    NewIsFull(p, second.time);
    SweptGrantsRepeats(p, EmptyTable, first, p.burst);
    var t := After(p, EmptyTable, Repeat(first, p.burst));
    assert first.key !in Sweep(p, t, second.time).visitors;
    var (t', ok) := Step(p, t, second);
    assert ok && t'.visitors[second.key].bucket == Bucket(p.burst as real - 1.0, second.time);
    assert Repeat(second, p.burst)[1..] == Repeat(second, p.burst - 1);
    SweptGrantsRepeats(p, t', second, p.burst - 1);
  }

  /** Unswept, it is not, if too little has trickled in since the first. */
  lemma SecondBurstUnswept(p: Params, first: Call, second: Call)
    requires p.rps > 0.0 && p.burst >= 1 && first.key == second.key && first.time <= second.time
    requires Refill(p, second.time - first.time) < p.burst as real
    ensures UnsweptDecisions(p, UnsweptAfter(p, map[], Repeat(first, p.burst)), Repeat(second, p.burst))
            != seq(p.burst, _ => true)
  {
    hide Refill, Available, Take, UnsweptAfter, UnsweptDecisions, Repeat;
    var u := UnsweptAfter(p, map[], Repeat(first, p.burst));
    var b := Lookup(p, u, first.key);
    NewIsFull(p, first.time);
    UnsweptDrainsRepeats(p, map[], first, p.burst);
    AvailableGrows(p, b, first.time, second.time);
    TakeSpends(p, b, first.time, second.time);
    SpanSplits(p, second.time, second.time, second.time);
    AllAdmitted(second, p.burst);
    UnsweptWindow(p, u, second.key, Repeat(second, p.burst), second.time, second.time);
  }

  /** The two bursts together are a run on which sweeping shows. */
  lemma SweepingShows(p: Params) returns (calls: seq<Call>)
    requires !p.RefillsWithinTTL()
    ensures Monotone(calls) && Decisions(p, EmptyTable, calls) != UnsweptDecisions(p, map[], calls)
  {
    hide Refill, Available, Take, Step, Params.RefillsWithinTTL;
    var gap := HalfwayGap(p);
    var first, second := Call(1.0, "client"), Call(1.0 + gap, "client");
    var xs, ys := Repeat(first, p.burst), Repeat(second, p.burst);
    calls := xs + ys;
    SecondBurstSwept(p, first, second);
    SecondBurstUnswept(p, first, second);
    DecisionsConcat(p, EmptyTable, xs, ys);
    UnsweptConcat(p, map[], xs, ys);
    assert Decisions(p, EmptyTable, calls)[|xs|..] != UnsweptDecisions(p, map[], calls)[|xs|..];
  }

  lemma SweepingIsInvisibleIff(p: Params)
    ensures (forall calls :: Monotone(calls) ==>
               Decisions(p, EmptyTable, calls) == UnsweptDecisions(p, map[], calls))
            <==> p.RefillsWithinTTL()
  {
    if p.RefillsWithinTTL() {
      forall calls | Monotone(calls)
        ensures Decisions(p, EmptyTable, calls) == UnsweptDecisions(p, map[], calls)
      {
        SweepingIsInvisible(p, calls);
      }
    } else {
      var calls := SweepingShows(p);
    }
  }

  /** The limiter of endpoint.New: 15 requests a second, burst 120, ten minutes of memory. */
  lemma DefaultsRefillWithinTTL()
    ensures Params(15.0, 120, 600.0).RefillsWithinTTL()
  {
    assert 600.0 * 15.0 == 9000.0;
  }

  // ---------------------------------------------------------------------------
  // Each key behaves as if it were alone
  // ---------------------------------------------------------------------------

  lemma {:induction false} UnsweptIsolation(p: Params, u: Buckets, key: string, calls: seq<Call>)
    ensures DecisionsOf(key, calls, UnsweptDecisions(p, u, calls)) ==
            LoneDecisions(p, Lookup(p, u, key), TimesOf(key, calls))
    decreases |calls|
  {
    if calls != [] {
      var b := Take(p, Lookup(p, u, calls[0].key), calls[0].time).0;
      UnsweptIsolation(p, u[calls[0].key := b], key, calls[1..]);
      assert UnsweptDecisions(p, u, calls)[1..] == UnsweptDecisions(p, u[calls[0].key := b], calls[1..]);
      if calls[0].key == key {
        assert TimesOf(key, calls) == [calls[0].time] + TimesOf(key, calls[1..]);
        assert TimesOf(key, calls)[1..] == TimesOf(key, calls[1..]);
        assert Lookup(p, u[calls[0].key := b], key) == b;
      } else {
        assert Lookup(p, u[calls[0].key := b], key) == Lookup(p, u, key);
        assert TimesOf(key, calls) == TimesOf(key, calls[1..]);
        assert DecisionsOf(key, calls, UnsweptDecisions(p, u, calls))
               == DecisionsOf(key, calls[1..], UnsweptDecisions(p, u, calls)[1..]);
      }
    }
  }

  lemma KeysAreIsolated(p: Params, key: string, calls: seq<Call>)
    requires p.RefillsWithinTTL() && Monotone(calls)
    ensures DecisionsOf(key, calls, Decisions(p, EmptyTable, calls)) ==
            LoneDecisions(p, NewBucket(p), TimesOf(key, calls))
  {
    SweepingIsInvisible(p, calls);
    UnsweptIsolation(p, map[], key, calls);
  }

  // ---------------------------------------------------------------------------
  // Exactly which calls are granted, told from times and earlier grants alone
  // ---------------------------------------------------------------------------

  /** The key's grants among the calls from i to before n, and one more, fit into the time from call i to call n. */
  predicate FitsSince(p: Params, calls: seq<Call>, ds: seq<bool>, i: nat, n: nat)
    requires |calls| == |ds| && i <= n < |calls|
  {
    (Admitted(calls[n].key, calls[i..n], ds[i..n]) + 1) as real
    <= p.burst as real + p.rps * (calls[n].time - calls[i].time)
  }

  ghost predicate FitsSinceEach(p: Params, calls: seq<Call>, ds: seq<bool>, n: nat)
    requires |calls| == |ds| && n < |calls|
  {
    forall i :: 0 <= i <= n && calls[i].key == calls[n].key ==> FitsSince(p, calls, ds, i, n)
  }

  /** What trickles in between two instants. */
  function Gain(p: Params, from: Time, to: Time): real { p.rps * (to - from) }

  /** So many grants and one more fit into what a bucket held and gained since; a full one sets no limit of its own. */
  predicate FitsBucket(p: Params, b: Bucket, granted: nat, now: Time) {
    b.tokens >= p.burst as real || (granted + 1) as real <= b.tokens + Gain(p, b.last, now)
  }

  /** Nothing has been taken from the bucket in the future. */
  predicate Aged(p: Params, b: Bucket, now: Time) { b.tokens >= p.burst as real || b.last <= now }

  lemma GainsAdd(p: Params, a: Time, b: Time, c: Time)
    requires p.rps > 0.0
    ensures Gain(p, a, c) == Gain(p, a, b) + Gain(p, b, c)
    ensures a <= b ==> Gain(p, a, b) >= 0.0
  {
    if a <= b { Scaled(0.0, b - a, p.rps); }
  }

  lemma AvailableIs(p: Params, b: Bucket, now: Time)
    requires p.rps > 0.0 && p.burst >= 1 && Aged(p, b, now)
    ensures Available(p, b, now) ==
            if b.tokens >= p.burst as real || b.tokens + Gain(p, b.last, now) >= p.burst as real then p.burst as real
            else b.tokens + Gain(p, b.last, now)
  {
    if b.tokens >= p.burst as real { Scaled(0.0, Elapsed(b.last, now), p.rps); }
  }

  /** One call of the key: what it leaves in the bucket allows later what the bucket did before, less its own grant. */
  lemma TakeFits(p: Params, b: Bucket, first: Time, granted: nat, now: Time)
    requires p.rps > 0.0 && p.burst >= 1 && Aged(p, b, first) && first <= now
    ensures var (b', ok) := Take(p, b, first);
            var all := granted + (if ok then 1 else 0);
            && Aged(p, b', now)
            && (FitsBucket(p, b', granted, now) <==>
                FitsBucket(p, b, all, now) && (all + 1) as real <= p.burst as real + Gain(p, first, now))
  {
    AvailableIs(p, b, first);
    GainsAdd(p, b.last, first, now);
    GainsAdd(p, first, now, now);
    hide Available, Gain;
  }

  lemma FirstFits(p: Params, b: Bucket, now: Time)
    requires p.rps > 0.0 && p.burst >= 1 && Aged(p, b, now)
    ensures Take(p, b, now).1 <==> FitsBucket(p, b, 0, now)
  {
    AvailableIs(p, b, now);
    hide Available;
  }

  /** The conditions on a call, with the first one split off. */
  lemma SliceOfTail<T>(s: seq<T>, i: nat, n: nat)
    requires 0 < i <= n <= |s|
    ensures s[i..n] == s[1..][i - 1..n - 1]
  {
    var a, b := s[i..n], s[1..][i - 1..n - 1];
    forall k | 0 <= k < n - i ensures a[k] == b[k] {
      assert b[k] == s[1..][i - 1 + k] == s[i + k];
    }
    assert a == b;
  }

  lemma FitsSinceShifted(p: Params, calls: seq<Call>, ds: seq<bool>, i: nat, n: nat)
    requires |calls| == |ds| && 0 < i <= n < |calls|
    ensures FitsSince(p, calls, ds, i, n) <==> FitsSince(p, calls[1..], ds[1..], i - 1, n - 1)
    ensures calls[i] == calls[1..][i - 1]
  {
    SliceOfTail(calls, i, n);
    SliceOfTail(ds, i, n);
    hide Admitted;
  }

  /** The conditions on a call, with the first one split off. */
  lemma FitsShifted(p: Params, calls: seq<Call>, ds: seq<bool>, n: nat)
    requires |calls| == |ds| && 0 < n < |calls|
    ensures FitsSinceEach(p, calls, ds, n) <==>
            && (calls[0].key == calls[n].key ==> FitsSince(p, calls, ds, 0, n))
            && FitsSinceEach(p, calls[1..], ds[1..], n - 1)
  {
    var later, laterDs := calls[1..], ds[1..];
    hide FitsSince;
    if FitsSinceEach(p, calls, ds, n) {
      forall i | 0 <= i <= n - 1 && later[i].key == later[n - 1].key
        ensures FitsSince(p, later, laterDs, i, n - 1)
      {
        FitsSinceShifted(p, calls, ds, i + 1, n);
      }
    }
    if FitsSinceEach(p, later, laterDs, n - 1) {
      forall i | 0 < i <= n && calls[i].key == calls[n].key
        ensures FitsSince(p, calls, ds, i, n)
      {
        FitsSinceShifted(p, calls, ds, i, n);
      }
    }
  }

  lemma AdmittedFrom(key: string, calls: seq<Call>, ds: seq<bool>, n: nat)
    requires |calls| == |ds| && 0 < n < |calls|
    ensures Admitted(key, calls[..n], ds[..n])
            == (if calls[0].key == key && ds[0] then 1 else 0) + Admitted(key, calls[1..][..n - 1], ds[1..][..n - 1])
  {
    assert calls[..n][1..] == calls[1..][..n - 1] && ds[..n][1..] == ds[1..][..n - 1];
  }

  lemma FitsSinceFirst(p: Params, calls: seq<Call>, ds: seq<bool>, n: nat)
    requires |calls| == |ds| && n < |calls|
    ensures FitsSince(p, calls, ds, 0, n) <==>
            (Admitted(calls[n].key, calls[..n], ds[..n]) + 1) as real
            <= p.burst as real + Gain(p, calls[0].time, calls[n].time)
  {
    assert calls[0..n] == calls[..n] && ds[0..n] == ds[..n];
  }

  lemma InTimeOrder(calls: seq<Call>, i: nat, j: nat)
    requires Monotone(calls) && i <= j < |calls|
    ensures calls[i].time <= calls[j].time
  {
  }

  lemma StaysAged(p: Params, b: Bucket, now: Time, later: Time)
    requires Aged(p, b, now) && now <= later
    ensures Aged(p, b, later)
  {
  }
  /** What the bucket that the first call leaves allows after the rest, told from the bucket it found. */
  lemma FirstCallFits(p: Params, b0: Bucket, b: Bucket, own: bool, ok: bool, first: Time, rest: nat, now: Time)
    requires p.rps > 0.0 && p.burst >= 1 && Aged(p, b0, first) && first <= now
    requires if own then (b, ok) == Take(p, b0, first) else b == b0
    ensures var all := rest + (if own && ok then 1 else 0);
            && Aged(p, b, now)
            && (FitsBucket(p, b, rest, now) <==>
                && FitsBucket(p, b0, all, now)
                && (own ==> (all + 1) as real <= p.burst as real + Gain(p, first, now)))
  {
    hide FitsBucket, Take, Aged, Gain;
    if own { TakeFits(p, b0, first, rest, now); } else { StaysAged(p, b0, first, now); }
  }

  /** If the rest of the calls is judged rightly from the bucket the first one leaves, the whole is. */
  lemma OneMoreFits(p: Params, b0: Bucket, b: Bucket, calls: seq<Call>, ds: seq<bool>, n: nat)
    requires p.rps > 0.0 && p.burst >= 1 && Monotone(calls) && |calls| == |ds| && 0 < n < |calls|
    requires Aged(p, b0, calls[0].time)
    requires if calls[0].key == calls[n].key then (b, ds[0]) == Take(p, b0, calls[0].time) else b == b0
    ensures var rest := Admitted(calls[n].key, calls[1..][..n - 1], ds[1..][..n - 1]);
            && Aged(p, b, calls[1].time)
            && (FitsBucket(p, b, rest, calls[n].time) && FitsSinceEach(p, calls[1..], ds[1..], n - 1) <==>
                && FitsBucket(p, b0, Admitted(calls[n].key, calls[..n], ds[..n]), calls[n].time)
                && FitsSinceEach(p, calls, ds, n))
  {
    hide FitsBucket, FitsSince, FitsSinceEach, Admitted, Take, Aged, Monotone, Gain;
    var key, own := calls[n].key, calls[0].key == calls[n].key;
    var rest := Admitted(key, calls[1..][..n - 1], ds[1..][..n - 1]);
    InTimeOrder(calls, 0, 1);
    InTimeOrder(calls, 0, n);
    FirstCallFits(p, b0, b, own, ds[0], calls[0].time, 0, calls[1].time);
    FirstCallFits(p, b0, b, own, ds[0], calls[0].time, rest, calls[n].time);
    AdmittedFrom(key, calls, ds, n);
    FitsSinceFirst(p, calls, ds, n);
    FitsShifted(p, calls, ds, n);
  }

  lemma {:induction false} UnsweptGrantsIff(p: Params, u: Buckets, calls: seq<Call>, n: nat)
    requires p.rps > 0.0 && p.burst >= 1 && Monotone(calls) && n < |calls|
    requires Aged(p, Lookup(p, u, calls[n].key), calls[0].time)
    ensures var ds := UnsweptDecisions(p, u, calls);
            ds[n] <==>
            && FitsBucket(p, Lookup(p, u, calls[n].key), Admitted(calls[n].key, calls[..n], ds[..n]), calls[n].time)
            && FitsSinceEach(p, calls, ds, n)
    decreases n
  {
    hide FitsBucket, FitsSinceEach, Take, Aged, Admitted;
    var ds, key := UnsweptDecisions(p, u, calls), calls[n].key;
    var (b, ok) := Take(p, Lookup(p, u, calls[0].key), calls[0].time);
    if n == 0 {
      FirstFits(p, Lookup(p, u, key), calls[0].time);
      FitsAlone(p, calls, ds);
    } else {
      var u', later := u[calls[0].key := b], calls[1..];
      assert ds[0] == ok && ds[1..] == UnsweptDecisions(p, u', later);
      OneMoreFits(p, Lookup(p, u, key), Lookup(p, u', key), calls, ds, n);
      hide UnsweptDecisions, Lookup;
      UnsweptGrantsIff(p, u', later, n - 1);
    }
  }


  lemma FitsAlone(p: Params, calls: seq<Call>, ds: seq<bool>)
    requires p.burst >= 1 && |calls| == |ds| > 0
    ensures FitsSinceEach(p, calls, ds, 0) && Admitted(calls[0].key, calls[..0], ds[..0]) == 0
  {
    assert calls[0..0] == [] && p.rps * (calls[0].time - calls[0].time) == 0.0;
  }

  lemma {:induction false} UnlimitedGrantsAll(p: Params, u: Buckets, calls: seq<Call>, n: nat)
    requires p.Unlimited() && n < |calls|
    ensures UnsweptDecisions(p, u, calls)[n]
    decreases n
  {
    if n > 0 { UnlimitedGrantsAll(p, u[calls[0].key := Lookup(p, u, calls[0].key)], calls[1..], n - 1); }
  }

  lemma {:induction false} NoBurstGrantsNothing(p: Params, u: Buckets, calls: seq<Call>, n: nat)
    requires !p.Unlimited() && p.burst < 1 && n < |calls|
    ensures !UnsweptDecisions(p, u, calls)[n]
    decreases n
  {
    if n > 0 { NoBurstGrantsNothing(p, u[calls[0].key := Lookup(p, u, calls[0].key)], calls[1..], n - 1); }
  }

  /** A call is granted exactly if it fits into the time since each earlier call of its key, and since itself. */
  lemma GrantedIff(p: Params, calls: seq<Call>, n: nat)
    requires p.RefillsWithinTTL() && Monotone(calls) && n < |calls|
    ensures var ds := Decisions(p, EmptyTable, calls);
            ds[n] <==> p.rps <= 0.0 || FitsSinceEach(p, calls, ds, n)
  {
    SweepingIsInvisible(p, calls);
    hide Decisions, UnsweptDecisions, Monotone;
    var ds := Decisions(p, EmptyTable, calls);
    if p.rps <= 0.0 {
      UnlimitedGrantsAll(p, map[], calls, n);
    } else if p.burst < 1 {
      NoBurstGrantsNothing(p, map[], calls, n);
      assert calls[n..n] == [] && p.rps * (calls[n].time - calls[n].time) == 0.0;
      assert !FitsSince(p, calls, ds, n, n);
    } else {
      UnsweptGrantsIff(p, map[], calls, n);
    }
  }

  // ---------------------------------------------------------------------------
  // How much one key can get in any window
  // ---------------------------------------------------------------------------

  ghost predicate Within(calls: seq<Call>, from: Time, to: Time) {
    forall i :: 0 <= i < |calls| ==> from <= calls[i].time <= to
  }

  lemma AvailableGrows(p: Params, b: Bucket, now: Time, later: Time)
    requires p.rps >= 0.0 && now <= later
    ensures Available(p, b, later) <= Available(p, b, now) + Refill(p, later - now)
  {
    ElapsedGrows(p, b.last, now, later);
    Scaled(0.0, later - now, p.rps);
  }

  /** One call, from `from` to `now`: what is taken comes out of the allowance, never below zero. */
  lemma TakeSpends(p: Params, b: Bucket, from: Time, now: Time)
    requires p.rps > 0.0 && p.burst >= 1 && from <= now && Available(p, b, from) >= 0.0
    ensures var (b', ok) := Take(p, b, now);
            && Available(p, b', now) >= 0.0
            && Available(p, b', now) + (if ok then 1.0 else 0.0) == Available(p, b, now)
            && Available(p, b, now) <= Available(p, b, from) + Refill(p, now - from)
  {
    AvailableGrows(p, b, from, now);
    ElapsedGrows(p, b.last, from, now);
    assert Elapsed(now, now) == 0.0;
    assert Available(p, b, from) <= Available(p, b, now);
  }

  lemma AvailableInRange(p: Params, b: Bucket, now: Time)
    requires p.rps > 0.0 && p.burst >= 1
    ensures Available(p, b, now) <= p.burst as real
    ensures b.tokens >= 0.0 ==> Available(p, b, now) >= 0.0
  {
    Scaled(0.0, Elapsed(b.last, now), p.rps);
  }

  lemma SpanSplits(p: Params, from: Time, now: Time, to: Time)
    requires p.rps > 0.0 && from <= now <= to
    ensures Refill(p, to - from) == Refill(p, now - from) + Refill(p, to - now)
    ensures 0.0 <= Refill(p, now - from) && 0.0 <= Refill(p, to - now)
  {
    Scaled(0.0, now - from, p.rps);
    Scaled(0.0, to - now, p.rps);
  }

  lemma {:induction false} UnsweptWindow(p: Params, u: Buckets, key: string, calls: seq<Call>, from: Time, to: Time)
    requires p.rps > 0.0 && p.burst >= 1 && from <= to && Monotone(calls) && Within(calls, from, to)
    requires Available(p, Lookup(p, u, key), from) >= 0.0
    ensures Admitted(key, calls, UnsweptDecisions(p, u, calls)) as real
            <= Available(p, Lookup(p, u, key), from) + Refill(p, to - from)
    decreases |calls|
  {
    hide Refill, Available, Take;
    if calls == [] {
      SpanSplits(p, from, to, to);
    } else {
      var c := calls[0];
      var (b, ok) := Take(p, Lookup(p, u, c.key), c.time);
      var u' := u[c.key := b];
      assert Within(calls[1..], c.time, to);
      TakeSpends(p, Lookup(p, u, key), from, c.time);
      SpanSplits(p, from, c.time, to);
      assert UnsweptDecisions(p, u, calls)[1..] == UnsweptDecisions(p, u', calls[1..]);
      UnsweptWindow(p, u', key, calls[1..], c.time, to);
    }
  }

  ghost predicate TokensKept(p: Params, u: Buckets) {
    forall k :: k in u ==> u[k].tokens >= 0.0
  }

  lemma {:induction false} UnsweptKeepsTokens(p: Params, u: Buckets, calls: seq<Call>)
    requires p.rps > 0.0 && p.burst >= 1 && TokensKept(p, u)
    ensures TokensKept(p, UnsweptAfter(p, u, calls))
    decreases |calls|
  {
    if calls != [] {
      UnsweptKeepsTokens(p, u[calls[0].key := Take(p, Lookup(p, u, calls[0].key), calls[0].time).0], calls[1..]);
    }
  }

  lemma {:induction false} NothingAdmitted(p: Params, key: string, t: Table, calls: seq<Call>)
    requires p.rps > 0.0 && p.burst < 1
    ensures Admitted(key, calls, Decisions(p, t, calls)) == 0
    decreases |calls|
  {
    if calls != [] {
      var t' := Step(p, t, calls[0]).0;
      assert Decisions(p, t, calls)[1..] == Decisions(p, t', calls[1..]);
      NothingAdmitted(p, key, t', calls[1..]);
    }
  }

  lemma MonotoneParts(xs: seq<Call>, ys: seq<Call>)
    requires Monotone(xs + ys)
    ensures Monotone(xs) && Monotone(ys)
  {
    forall i, j | 0 <= i < j < |xs| ensures xs[i].time <= xs[j].time {
      assert (xs + ys)[i].time <= (xs + ys)[j].time;
    }
    forall i, j | 0 <= i < j < |ys| ensures ys[i].time <= ys[j].time {
      assert (xs + ys)[|xs| + i].time <= (xs + ys)[|xs| + j].time;
    }
  }

  /** Whatever came before, a window [from, to] admits at most burst + rps * length calls of one key. */
  lemma WindowBound(p: Params, key: string, before: seq<Call>, window: seq<Call>, from: Time, to: Time)
    requires p.rps > 0.0 && p.RefillsWithinTTL()
    requires Monotone(before + window) && Within(window, from, to) && from <= to
    ensures Admitted(key, window, Decisions(p, After(p, EmptyTable, before), window)) as real
            <= p.Capacity() + Refill(p, to - from)
  {
    hide Refill, Available, Take;
    SpanSplits(p, from, to, to);
    if p.burst < 1 {
      NothingAdmitted(p, key, After(p, EmptyTable, before), window);
    } else {
      MonotoneParts(before, window);
      SweepingIsInvisible(p, before + window);
      SweepingIsInvisible(p, before);
      DecisionsConcat(p, EmptyTable, before, window);
      UnsweptConcat(p, map[], before, window);
      var u := UnsweptAfter(p, map[], before);
      var whole := Decisions(p, EmptyTable, before + window);
      assert whole[|before|..] == Decisions(p, After(p, EmptyTable, before), window);
      assert whole[|before|..] == UnsweptDecisions(p, u, window);
      UnsweptKeepsTokens(p, map[], before);
      AvailableInRange(p, Lookup(p, u, key), from);
      UnsweptWindow(p, u, key, window, from, to);
    }
  }

  // Without the refill condition every deletion may hand out one more burst, but a
  // deletion costs the key more than ttl of silence.

  function Resets(p: Params, length: Time): int
    requires p.ttl > 0.0
  {
    (length / p.ttl).Floor
  }

  lemma ResetsGrow(p: Params, a: Time, b: Time)
    requires p.ttl > 0.0 && a <= b
    ensures Resets(p, a) <= Resets(p, b)
    ensures a + p.ttl <= b ==> Resets(p, a) + 1 <= Resets(p, b)
    ensures 0.0 <= a ==> 0 <= Resets(p, a)
  {
    assert a / p.ttl <= b / p.ttl by { Divided(a, b, p.ttl); }
    if a + p.ttl <= b {
      Divided(a + p.ttl, b, p.ttl);
      OneMore(a, p.ttl);
    }
    if 0.0 <= a { Divided(0.0, a, p.ttl); }
  }

  lemma OneMore(a: real, c: real)
    requires c > 0.0
    ensures (a + c) / c == a / c + 1.0
  {
    var x, y := (a + c) / c, a / c + 1.0;
    assert x * c == a + c && y * c == (a / c) * c + c == a + c;
    if x < y { Strictly(x, y, c); } else if y < x { Strictly(y, x, c); }
  }

  lemma Divided(a: real, b: real, c: real)
    requires a <= b && c > 0.0
    ensures a / c <= b / c
  {
    var x, y := a / c, b / c;
    assert x * c == a && y * c == b;
    if x > y { Strictly(y, x, c); }
  }

  /** One burst for every deletion that fits into a stretch of time. */
  function Bursts(p: Params, length: Time): real
    requires p.ttl > 0.0
  {
    Resets(p, length) as real * p.burst as real
  }

  lemma Distributes(r: real, c: real)
    ensures (r + 1.0) * c == r * c + c
  {
  }

  lemma BurstsGrow(p: Params, a: Time, b: Time)
    requires p.ttl > 0.0 && p.burst >= 1 && a <= b
    ensures Bursts(p, a) <= Bursts(p, b)
    ensures a + p.ttl <= b ==> Bursts(p, a) + p.burst as real <= Bursts(p, b)
    ensures 0.0 <= a ==> 0.0 <= Bursts(p, a)
  {
    hide Resets;
    ResetsGrow(p, a, b);
    var r, s, c := Resets(p, a) as real, Resets(p, b) as real, p.burst as real;
    Scaled(r, s, c);
    if a + p.ttl <= b {
      Scaled(r + 1.0, s, c);
      Distributes(r, c);
    }
    if 0.0 <= a { Scaled(0.0, r, c); }
  }

  lemma Strictly(a: real, b: real, c: real)
    requires a < b && c > 0.0
    ensures a * c < b * c
  {
  }

  function LastSeen(t: Table, key: string, default: Time): Time {
    if key in t.visitors then t.visitors[key].lastSeen else default
  }

  ghost predicate TableKept(p: Params, t: Table, now: Time) {
    forall k :: k in t.visitors ==> t.visitors[k].lastSeen <= now && t.visitors[k].bucket.tokens >= 0.0
  }

  lemma SweepKeepsTable(p: Params, t: Table, now: Time, later: Time)
    requires p.burst >= 1 && TableKept(p, t, now) && now <= later
    ensures TableKept(p, Sweep(p, t, later), later)
    ensures forall k :: BucketOf(p, Sweep(p, t, later), k).tokens >= 0.0
  {
  }

  lemma StepKeepsTable(p: Params, t: Table, now: Time, c: Call)
    requires p.rps > 0.0 && p.burst >= 1 && TableKept(p, t, now) && now <= c.time
    ensures TableKept(p, Step(p, t, c).0, c.time)
  {
  }

  /** What a key may still get from a table state at time `from`, up to time `to`. */
  function Allowance(p: Params, t: Table, key: string, from: Time, to: Time): real
    requires p.ttl > 0.0
  {
    Available(p, BucketOf(p, t, key), from)
    + Bursts(p, to - LastSeen(t, key, from))
    + Refill(p, to - from)
  }

  lemma AllowanceSeen(p: Params, t: Table, key: string, now: Time, to: Time)
    requires p.ttl > 0.0 && key in t.visitors && t.visitors[key].lastSeen == now
    ensures Allowance(p, t, key, now, to)
            == Available(p, t.visitors[key].bucket, now) + Bursts(p, to - now) + Refill(p, to - now)
  {
  }

  lemma SweepKeepsAllowance(p: Params, t: Table, key: string, from: Time, now: Time, to: Time)
    requires p.rps > 0.0 && p.burst >= 1 && p.ttl > 0.0 && from <= now <= to
    requires TableKept(p, t, from)
    ensures Allowance(p, Sweep(p, t, now), key, now, to) <= Allowance(p, t, key, from, to)
    ensures TableKept(p, Sweep(p, t, now), now)
  {
    hide Refill, Available, Bursts;
    SweepKeepsTable(p, t, from, now);
    var swept := Sweep(p, t, now);
    var b := BucketOf(p, t, key);
    AvailableGrows(p, b, from, now);
    SpanSplits(p, from, now, to);
    BurstsGrow(p, to - LastSeen(swept, key, now), to - LastSeen(t, key, from));
    AvailableInRange(p, NewBucket(p), now);
    AvailableInRange(p, b, from);
  }

  lemma {:induction false} SweptWindow(p: Params, t: Table, key: string, calls: seq<Call>, from: Time, to: Time)
    requires p.rps > 0.0 && p.burst >= 1 && p.ttl > 0.0 && from <= to
    requires Monotone(calls) && Within(calls, from, to) && TableKept(p, t, from)
    ensures Admitted(key, calls, Decisions(p, t, calls)) as real <= Allowance(p, t, key, from, to)
    decreases |calls|
  {
    hide Refill, Available, Take, Bursts, Sweep;
    if calls == [] {
      AvailableInRange(p, BucketOf(p, t, key), from);
      SpanSplits(p, from, to, to);
      BurstsGrow(p, to - LastSeen(t, key, from), to - LastSeen(t, key, from));
    } else {
      var c := calls[0];
      var (t', ok) := Step(p, t, c);
      var swept := Sweep(p, t, c.time);
      SweepKeepsAllowance(p, t, key, from, c.time, to);
      AvailableInRange(p, BucketOf(p, swept, c.key), c.time);
      TakeSpends(p, BucketOf(p, swept, c.key), c.time, c.time);
      StepKeepsTable(p, t, from, c);
      assert Decisions(p, t, calls)[1..] == Decisions(p, t', calls[1..]);
      BurstsGrow(p, to - c.time, to - LastSeen(swept, key, c.time));
      SweptWindow(p, t', key, calls[1..], c.time, to);
    }
  }

  lemma {:induction false} AfterKept(p: Params, t: Table, now: Time, calls: seq<Call>, end: Time)
    requires p.rps > 0.0 && p.burst >= 1 && TableKept(p, t, now)
    requires Monotone(calls) && Within(calls, now, end) && now <= end
    ensures TableKept(p, After(p, t, calls), end)
    decreases |calls|
  {
    if calls != [] {
      AfterKept(p, Step(p, t, calls[0]).0, calls[0].time, calls[1..], end);
    }
  }

  /** Silence before the window is free: until the key's first call there, it holds at most one burst. */
  lemma {:induction false} WeakWindow(p: Params, t: Table, key: string, calls: seq<Call>, from: Time, to: Time)
    requires p.rps > 0.0 && p.burst >= 1 && p.ttl > 0.0 && from <= to
    requires Monotone(calls) && Within(calls, from, to) && TableKept(p, t, from)
    ensures Admitted(key, calls, Decisions(p, t, calls)) as real
            <= p.burst as real + Bursts(p, to - from) + Refill(p, to - from)
    decreases |calls|
  {
    hide Refill, Available, Take, Bursts, Sweep, Allowance;
    BurstsGrow(p, to - from, to - from);
    if calls == [] {
      SpanSplits(p, from, to, to);
    } else {
      var c := calls[0];
      var (t', ok) := Step(p, t, c);
      assert Decisions(p, t, calls)[1..] == Decisions(p, t', calls[1..]);
      BurstsGrow(p, to - c.time, to - from);
      SpanSplits(p, from, c.time, to);
      StepKeepsTable(p, t, from, c);
      if c.key != key {
        WeakWindow(p, t', key, calls[1..], c.time, to);
      } else {
        SweepKeepsTable(p, t, from, c.time);
        var b := BucketOf(p, Sweep(p, t, c.time), key);
        AvailableInRange(p, b, c.time);
        TakeSpends(p, b, c.time, c.time);
        SweptWindow(p, t', key, calls[1..], c.time, to);
        assert Allowance(p, t', key, c.time, to)
               == Available(p, t'.visitors[key].bucket, c.time) + Bursts(p, to - c.time) + Refill(p, to - c.time) by {
          AllowanceSeen(p, t', key, c.time, to);
        }
      }
    }
  }

  /** The bound for a window that starts no earlier than any earlier call. */
  lemma WindowAfterCalls(p: Params, key: string, before: seq<Call>, window: seq<Call>, from: Time, to: Time)
    requires p.rps > 0.0 && p.ttl > 0.0 && p.burst >= 1
    requires Monotone(before + window) && Within(window, from, to) && from <= to
    requires forall i :: 0 <= i < |before| ==> before[i].time <= from
    ensures Admitted(key, window, Decisions(p, After(p, EmptyTable, before), window)) as real
            <= (1 + Resets(p, to - from)) as real * p.Capacity() + Refill(p, to - from)
  {
    hide Refill, Available, Take, Resets;
    var t := After(p, EmptyTable, before);
    MonotoneParts(before, window);
    AfterKept(p, EmptyTable, if before == [] then from else before[0].time, before, from);
    WeakWindow(p, t, key, window, from, to);
    Distributes(Resets(p, to - from) as real, p.burst as real);
  }

  lemma LongerWindowsAllowMore(p: Params, a: Time, b: Time)
    requires p.rps > 0.0 && p.ttl > 0.0 && p.burst >= 1 && 0.0 <= a <= b
    ensures (1 + Resets(p, a)) as real * p.Capacity() + Refill(p, a)
            <= (1 + Resets(p, b)) as real * p.Capacity() + Refill(p, b)
    ensures 0.0 <= (1 + Resets(p, a)) as real * p.Capacity() + Refill(p, a)
  {
    hide Resets;
    ResetsGrow(p, a, b);
    Scaled((1 + Resets(p, a)) as real, (1 + Resets(p, b)) as real, p.Capacity());
    Scaled(0.0, (1 + Resets(p, a)) as real, p.Capacity());
    Scaled(a, b, p.rps);
    Scaled(0.0, a, p.rps);
  }

  lemma StartsWithin(before: seq<Call>, window: seq<Call>, from: Time, to: Time, start: Time)
    requires Monotone(before + window) && Within(window, from, to) && window != []
    requires start == from || (before != [] && from <= start == before[|before| - 1].time)
    requires before != [] ==> before[|before| - 1].time <= start
    ensures start <= to && Within(window, start, to)
    ensures forall i :: 0 <= i < |before| ==> before[i].time <= start
  {
    var all := before + window;
    forall i | 0 <= i < |before| ensures before[i].time <= start {
      assert i < |before| - 1 ==> all[i].time <= all[|before| - 1].time;
    }
    forall i | 0 <= i < |window| ensures start <= window[i].time {
      assert window[i] == all[|before| + i];
      assert before != [] ==> all[|before| - 1].time <= all[|before| + i].time;
    }
    assert window[0].time <= to;
  }

  /** With no condition on the parameters: one more burst per ttl of the window, rounded down. */
  lemma WindowBoundWithoutRefill(p: Params, key: string, before: seq<Call>, window: seq<Call>, from: Time, to: Time)
    requires p.rps > 0.0 && p.ttl > 0.0
    requires Monotone(before + window) && Within(window, from, to) && from <= to
    ensures Admitted(key, window, Decisions(p, After(p, EmptyTable, before), window)) as real
            <= (1 + Resets(p, to - from)) as real * p.Capacity() + Refill(p, to - from)
  {
    hide Refill, Resets, Decisions, After;
    if p.burst < 1 {
      NothingAdmitted(p, key, After(p, EmptyTable, before), window);
      SpanSplits(p, from, to, to);
    } else if window == [] {
      LongerWindowsAllowMore(p, to - from, to - from);
    } else {
      var last := if before == [] then from else before[|before| - 1].time;
      var start := if from < last then last else from;
      StartsWithin(before, window, from, to, start);
      WindowAfterCalls(p, key, before, window, start, to);
      LongerWindowsAllowMore(p, to - start, to - from);
    }
  }

  // ---------------------------------------------------------------------------
  // How long a silent visitor is kept
  // ---------------------------------------------------------------------------

  ghost predicate Retained(p: Params, t: Table, now: Time) {
    && ZERO_TIME < t.lastSweep <= now && now - t.lastSweep <= p.ttl
    && forall k :: k in t.visitors ==> t.visitors[k].lastSeen <= now
                                       && t.lastSweep - t.visitors[k].lastSeen <= p.ttl
  }

  lemma {:induction false} RetentionKept(p: Params, t: Table, now: Time, calls: seq<Call>)
    requires p.ttl >= 0.0 && calls != [] && Monotone(calls) && ZERO_TIME < calls[0].time
    requires t == EmptyTable || (Retained(p, t, now) && now <= calls[0].time)
    ensures Retained(p, After(p, t, calls), calls[|calls| - 1].time)
    decreases |calls|
  {
    var t' := Step(p, t, calls[0]).0;
    assert Retained(p, t', calls[0].time);
    if |calls| > 1 {
      RetentionKept(p, t', calls[0].time, calls[1..]);
    } else {
      assert After(p, t, calls) == t';
    }
  }

  /** After every call, each stored visitor was seen within the last 2 * ttl. */
  lemma VisitorsAreForgotten(p: Params, calls: seq<Call>, key: string)
    requires p.ttl >= 0.0 && calls != [] && Monotone(calls) && ZERO_TIME < calls[0].time
    requires key in After(p, EmptyTable, calls).visitors
    ensures calls[|calls| - 1].time - After(p, EmptyTable, calls).visitors[key].lastSeen <= 2.0 * p.ttl
  {
    RetentionKept(p, EmptyTable, ZERO_TIME, calls);
  }

  // ---------------------------------------------------------------------------
  // The limiter as the object it is
  // ---------------------------------------------------------------------------

  class Visitor {
    var bucket: Bucket
    var lastSeen: Time

    constructor (bucket: Bucket, lastSeen: Time)
      ensures this.bucket == bucket && this.lastSeen == lastSeen
    {
      this.bucket := bucket;
      this.lastSeen := lastSeen;
    }
  }

  class IpRateLimiter {
    const params: Params
    var visitors: map<string, Visitor>
    var lastSweep: Time
    ghost var Repr: set<Visitor>

    /** Every visitor is the limiter's own, and no two keys share one. */
    ghost predicate Valid()
      reads this
    {
      && (forall k :: k in visitors ==> visitors[k] in Repr)
      && forall k, l :: k in visitors && l in visitors && k != l ==> visitors[k] != visitors[l]
    }

    ghost function Contents(): Table
      requires Valid()
      reads this, Repr
    {
      Table(map k | k in visitors :: Visit(visitors[k].bucket, visitors[k].lastSeen), lastSweep)
    }

    constructor (rps: real, burst: int, ttl: Time)
      ensures Valid() && fresh(Repr)
      ensures Contents() == EmptyTable && params == Params(rps, burst, ttl)
    {
      params := Params(rps, burst, ttl);
      visitors := map[];
      lastSweep := ZERO_TIME;
      Repr := {};
    }

    method DeleteIdle(now: Time)
      modifies this`visitors
      ensures visitors == map k | k in old(visitors) && now - old(visitors[k].lastSeen) <= params.ttl :: old(visitors)[k]
    {
      var todo := visitors.Keys;
      while todo != {}
        invariant todo <= visitors.Keys <= old(visitors).Keys
        invariant forall k :: k in visitors ==> visitors[k] == old(visitors)[k]
        invariant forall k :: k in old(visitors) && k !in todo ==>
                                (k in visitors <==> now - old(visitors[k].lastSeen) <= params.ttl)
        decreases todo
      {
        var k :| k in todo;
        if now - visitors[k].lastSeen > params.ttl {
          visitors := visitors - {k};
        }
        todo := todo - {k};
      }
    }

    /** The lazy sweep at the head of allow. */
    method SweepIfDue(now: Time)
      requires Valid()
      modifies this`visitors, this`lastSweep
      ensures Valid()
      ensures Contents() == Sweep(params, old(Contents()), now)
    {
      if lastSweep == ZERO_TIME {
        lastSweep := now;
      }
      if now - lastSweep > params.ttl {
        DeleteIdle(now);
        lastSweep := now;
      }
    }

    /** Looks the key up, giving it a full bucket if it is new. */
    method Admit(key: string)
      requires Valid()
      modifies this`visitors, this`Repr
      ensures Valid() && fresh(Repr - old(Repr)) && key in visitors
      ensures Contents() == var t := old(Contents());
                            if key in t.visitors then t
                            else Table(t.visitors[key := Visit(NewBucket(params), ZERO_TIME)], t.lastSweep)
    {
      hide NewBucket;
      if key !in visitors {
        var newcomer := new Visitor(NewBucket(params), ZERO_TIME);
        visitors, Repr := visitors[key := newcomer], Repr + {newcomer};
      }
    }

    /** Marks a known visitor as seen and takes a token from its bucket. */
    method Charge(key: string, now: Time) returns (ok: bool)
      requires Valid() && key in visitors
      modifies visitors[key]
      ensures Valid()
      ensures var t := old(Contents());
              var (bucket, granted) := Take(params, t.visitors[key].bucket, now);
              ok == granted && Contents() == Table(t.visitors[key := Visit(bucket, now)], t.lastSweep)
    {
      hide Take;
      var v := visitors[key];
      v.lastSeen := now;
      var (bucket, granted) := Take(params, v.bucket, now);
      v.bucket := bucket;
      ok := granted;
    }

    method Allow(key: string, now: Time) returns (ok: bool)
      requires Valid()
      modifies this, Repr
      ensures Valid() && fresh(Repr - old(Repr))
      ensures (Contents(), ok) == Step(params, old(Contents()), Call(now, key))
    {
      hide Take, Sweep, NewBucket;
      SweepIfDue(now);
      ghost var swept := Contents();
      Admit(key);
      ghost var known := Contents();
      ok := Charge(key, now);
      assert known.visitors[key].bucket == BucketOf(params, swept, key);
      ghost var visit := Contents().visitors[key];
      assert known.visitors[key := visit] == swept.visitors[key := visit];
    }
  }
}
