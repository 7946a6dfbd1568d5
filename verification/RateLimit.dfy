/**
 The sliding-window rate limiter (brain/app/api/deps.py). Refusals are HTTP 429 responses with a
 delay in seconds (section 4 of RFC 6585, section 10.2.3 of RFC 9110).

 The code keeps a pruned list of admission times per bucket. The specification keeps the full log of
 admitted requests and never forgets anything.
 */
module RateLimit {

  datatype Config = Config(limit: int, globalLimit: int, window: int)

  /** `Crashed` is the IndexError of `hits[0]` on an empty list. */
  datatype Decision = Admitted | Refused(retryAfter: nat) | Crashed

  datatype Admission = Admission(time: real, principal: string, route: string)

  function RouteKey(principal: string, route: string): string {
    "route:" + principal + ":" + route
  }

  function GlobalKey(principal: string): string {
    "global:" + principal
  }

  lemma RouteIsNotGlobal(p: string, r: string, q: string)
    ensures RouteKey(p, r) != GlobalKey(q)
  {
    assert RouteKey(p, r)[0] == 'r' && GlobalKey(q)[0] == 'g';
  }

  // ---------------------------------------------------------------- the full log decides

  predicate Booked(a: Admission, key: string) {
    key == RouteKey(a.principal, a.route) || key == GlobalKey(a.principal)
  }

  /** When requests of this bucket were admitted. */
  function Times(log: seq<Admission>, key: string): seq<real> {
    if log == [] then []
    else
      var last := log[|log| - 1];
      Times(log[..|log| - 1], key) + (if Booked(last, key) then [last.time] else [])
  }

  /** Those that still count at `now`. */
  function Recent(cfg: Config, times: seq<real>, now: real): (recent: seq<real>)
    ensures |recent| <= |times|
    ensures forall t :: t in recent <==> t in times && now - t < cfg.window as real
  {
    if times == [] then []
    else
      var last := times[|times| - 1];
      Recent(cfg, times[..|times| - 1], now) + (if now - last < cfg.window as real then [last] else [])
  }

  /** How long until the oldest counted request leaves the window. */
  function Due(cfg: Config, hits: seq<real>, now: real): real
    requires hits != []
  {
    cfg.window as real - (now - hits[0])
  }

  function Wait(cfg: Config, hits: seq<real>, limit: int, now: real): (retry: nat)
    requires hits != [] && now - hits[0] < cfg.window as real
    ensures |hits| >= limit ==> retry as real - 1.0 <= Due(cfg, hits, now) < retry as real
    ensures |hits| < limit ==> retry == 0
  {
    if |hits| >= limit then Due(cfg, hits, now).Floor + 1 else 0
  }

  function WaitFor(cfg: Config, times: seq<real>, limit: int, now: real): nat {
    var hits := Recent(cfg, times, now);
    if hits == [] then 0 else assert hits[0] in hits; Wait(cfg, hits, limit, now)
  }

  /** A bucket whose limit is not positive fails on its empty list. */
  predicate Fails(cfg: Config, times: seq<real>, limit: int, now: real) {
    Recent(cfg, times, now) == [] && 0 >= limit
  }

  function Larger(a: nat, b: nat): nat {
    if a < b then b else a
  }

  /** The decision on the times booked for the two buckets of a request. */
  function DecideOn(cfg: Config, routeTimes: seq<real>, globalTimes: seq<real>, now: real): Decision {
    if Fails(cfg, routeTimes, cfg.limit, now) || Fails(cfg, globalTimes, cfg.globalLimit, now) then Crashed
    else
      var retry := Larger(WaitFor(cfg, routeTimes, cfg.limit, now), WaitFor(cfg, globalTimes, cfg.globalLimit, now));
      if retry > 0 then Refused(retry) else Admitted
  }

  function Decide(cfg: Config, log: seq<Admission>, now: real, principal: string, route: string): Decision {
    DecideOn(cfg, Times(log, RouteKey(principal, route)), Times(log, GlobalKey(principal)), now)
  }

  // ---------------------------------------------------------------- runs

  datatype Call = Call(now: real, principal: string, route: string)

  /** The admissions of a series of calls. */
  function LogOf(cfg: Config, calls: seq<Call>): seq<Admission> {
    if calls == [] then []
    else
      var log := LogOf(cfg, calls[..|calls| - 1]);
      var c := calls[|calls| - 1];
      if Decide(cfg, log, c.now, c.principal, c.route) == Admitted then log + [Admission(c.now, c.principal, c.route)] else log
  }

  ghost predicate ClockRuns(calls: seq<Call>) {
    forall i, j :: 0 <= i < j < |calls| ==> calls[i].now <= calls[j].now
  }

  ghost predicate Ordered(times: seq<real>) {
    forall i, j :: 0 <= i < j < |times| ==> times[i] <= times[j]
  }

  lemma TimesAppend(log: seq<Admission>, a: Admission, key: string)
    ensures Times(log + [a], key) == Times(log, key) + (if Booked(a, key) then [a.time] else [])
  {
  }

  lemma RecentAppend(cfg: Config, times: seq<real>, t: real, now: real)
    ensures Recent(cfg, times + [t], now) == Recent(cfg, times, now) + (if now - t < cfg.window as real then [t] else [])
  {
  }

  /** What no longer counts never counts again. */
  lemma {:induction false} RecentTwice(cfg: Config, times: seq<real>, now: real, later: real)
    requires now <= later
    ensures Recent(cfg, Recent(cfg, times, now), later) == Recent(cfg, times, later)
  {
    if times != [] {
      var n := |times| - 1;
      RecentTwice(cfg, times[..n], now, later);
      var before := Recent(cfg, times[..n], now);
      if now - times[n] < cfg.window as real {
        assert Recent(cfg, times, now) == before + [times[n]];
        RecentAppend(cfg, before, times[n], later);
      } else {
        assert Recent(cfg, times, now) == before;
      }
    }
  }

  /** In order of time, everything after a time that counts counts as well. */
  lemma {:induction false} RecentIsSuffix(cfg: Config, times: seq<real>, now: real, i: nat)
    requires Ordered(times) && i < |times| && now - times[i] < cfg.window as real
    ensures |Recent(cfg, times, now)| >= |times| - i
  {
    var n := |times| - 1;
    if i < n { RecentIsSuffix(cfg, times[..n], now, i); }
  }

  lemma {:induction false} RecentKeepsOrder(cfg: Config, times: seq<real>, now: real)
    requires Ordered(times)
    ensures Ordered(Recent(cfg, times, now))
  {
    if times != [] {
      var n := |times| - 1;
      RecentKeepsOrder(cfg, times[..n], now);
      var before := Recent(cfg, times[..n], now);
      forall i | 0 <= i < |before| ensures before[i] <= times[n] {
        assert before[i] in before;
      }
    }
  }

  lemma OrderedAppend(times: seq<real>, t: real)
    requires Ordered(times) && forall s :: s in times ==> s <= t
    ensures Ordered(times + [t])
  {
    forall i | 0 <= i < |times| ensures times[i] <= t { assert times[i] in times; }
  }

  /** Admissions of a bucket are booked in order, none after the last call. */
  lemma {:induction false} TimesAreOrdered(cfg: Config, calls: seq<Call>, key: string)
    requires ClockRuns(calls)
    ensures Ordered(Times(LogOf(cfg, calls), key))
    ensures forall t :: t in Times(LogOf(cfg, calls), key) ==> calls != [] && t <= calls[|calls| - 1].now
  {
    if calls != [] {
      var n := |calls| - 1;
      TimesAreOrdered(cfg, calls[..n], key);
      var log, c := LogOf(cfg, calls[..n]), calls[n];
      var before := Times(log, key);
      TimesAppend(log, Admission(c.now, c.principal, c.route), key);
      forall t | t in before ensures t <= c.now { assert t <= calls[n - 1].now <= c.now; }
      OrderedAppend(before, c.now);
    }
  }

  /** A bucket lets a request through exactly when it holds fewer than its limit. */
  lemma BucketOpen(cfg: Config, times: seq<real>, limit: int, now: real)
    ensures !Fails(cfg, times, limit, now) && WaitFor(cfg, times, limit, now) == 0 <==> |Recent(cfg, times, now)| < limit
  {
    var hits := Recent(cfg, times, now);
    if hits != [] { assert hits[0] in hits; }
  }

  lemma AdmittedIffBelowLimits(cfg: Config, log: seq<Admission>, now: real, principal: string, route: string)
    ensures Decide(cfg, log, now, principal, route) == Admitted <==>
              && |Recent(cfg, Times(log, RouteKey(principal, route)), now)| < cfg.limit
              && |Recent(cfg, Times(log, GlobalKey(principal)), now)| < cfg.globalLimit
  {
    BucketOpen(cfg, Times(log, RouteKey(principal, route)), cfg.limit, now);
    BucketOpen(cfg, Times(log, GlobalKey(principal)), cfg.globalLimit, now);
  }

  /** The limit of a bucket. */
  function LimitOf(cfg: Config, key: string): int {
    if key != "" && key[0] == 'g' then cfg.globalLimit else cfg.limit
  }

  /** The last call books at most one time, and only below the limit. */
  lemma LastCallBooks(cfg: Config, calls: seq<Call>, key: string)
    requires calls != []
    ensures var n := |calls| - 1;
            var before, after := Times(LogOf(cfg, calls[..n]), key), Times(LogOf(cfg, calls), key);
            after == before
            || (after == before + [calls[n].now] && |Recent(cfg, before, calls[n].now)| < LimitOf(cfg, key))
  {
    var c := calls[|calls| - 1];
    var log := LogOf(cfg, calls[..|calls| - 1]);
    TimesAppend(log, Admission(c.now, c.principal, c.route), key);
    AdmittedIffBelowLimits(cfg, log, c.now, c.principal, c.route);
    assert Times(log, key) + [] == Times(log, key);
  }

  /** Of any times within less than a window there are at most `limit`. */
  ghost predicate Spaced(cfg: Config, times: seq<real>, limit: int) {
    forall i, j :: 0 <= i <= j < |times| && times[j] - times[i] < cfg.window as real ==> j - i + 1 <= limit
  }

  lemma SpacedAppend(cfg: Config, times: seq<real>, now: real, limit: int)
    requires Spaced(cfg, times, limit) && Ordered(times) && |Recent(cfg, times, now)| < limit
    ensures Spaced(cfg, times + [now], limit)
  {
    var n := |times|;
    forall i | 0 <= i <= n && now - (times + [now])[i] < cfg.window as real ensures n - i + 1 <= limit {
      if i < n { RecentIsSuffix(cfg, times, now, i); }
    }
  }

  lemma {:induction false} BucketsAreSpaced(cfg: Config, calls: seq<Call>, key: string)
    requires ClockRuns(calls)
    ensures Spaced(cfg, Times(LogOf(cfg, calls), key), LimitOf(cfg, key))
  {
    if calls != [] {
      var n := |calls| - 1;
      BucketsAreSpaced(cfg, calls[..n], key);
      TimesAreOrdered(cfg, calls[..n], key);
      LastCallBooks(cfg, calls, key);
      var before := Times(LogOf(cfg, calls[..n]), key);
      if Times(LogOf(cfg, calls), key) != before { SpacedAppend(cfg, before, calls[n].now, LimitOf(cfg, key)); }
    }
  }

  /** No window holds more admissions of a bucket than its limit: the one that comes `limit` places
      later is at least a whole window later. */
  lemma WindowsHoldAtMostLimit(cfg: Config, calls: seq<Call>, key: string, i: nat, j: nat)
    requires ClockRuns(calls)
    requires i <= j < |Times(LogOf(cfg, calls), key)|
    requires var times := Times(LogOf(cfg, calls), key); times[j] - times[i] < cfg.window as real
    ensures j - i + 1 <= LimitOf(cfg, key)
  {
    BucketsAreSpaced(cfg, calls, key);
  }

  /** The place of an admission in its bucket. */
  lemma {:induction false} PlaceInBucket(log: seq<Admission>, key: string, i: nat)
    requires i < |log| && Booked(log[i], key)
    ensures |Times(log[..i], key)| < |Times(log, key)| && Times(log, key)[|Times(log[..i], key)|] == log[i].time
  {
    var n := |log| - 1;
    if i < n {
      PlaceInBucket(log[..n], key, i);
      assert log[..n][..i] == log[..i];
    }
  }

  lemma {:induction false} PlacesAreOrdered(log: seq<Admission>, key: string, i: nat, j: nat)
    requires i < j <= |log| && Booked(log[i], key)
    ensures |Times(log[..i], key)| < |Times(log[..j], key)|
  {
    var shorter := log[..j];
    assert shorter[..j - 1] == log[..j - 1] && shorter[j - 1] == log[j - 1];
    if i < j - 1 { PlacesAreOrdered(log, key, i, j - 1); }
  }

  /** Increasing places in the log, all booked under one key. */
  ghost predicate Picks(log: seq<Admission>, key: string, picked: seq<nat>) {
    && (forall a, b :: 0 <= a < b < |picked| ==> picked[a] < picked[b])
    && (forall a :: 0 <= a < |picked| ==> picked[a] < |log| && Booked(log[picked[a]], key))
  }

  lemma {:induction false} PickedPlaces(log: seq<Admission>, key: string, picked: seq<nat>)
    requires picked != [] && Picks(log, key, picked)
    ensures |picked| - 1 <= |Times(log[..picked[|picked| - 1]], key)| - |Times(log[..picked[0]], key)|
  {
    var n := |picked| - 1;
    if n > 0 {
      PickedPlaces(log, key, picked[..n]);
      PlacesAreOrdered(log, key, picked[n - 1], picked[n]);
    }
  }

  /** However admissions of one bucket are picked from within less than a window, there are at most as many as its
      limit: per principal and route under the one key, per principal under the other. */
  lemma AdmissionsWithinLimits(cfg: Config, calls: seq<Call>, key: string, picked: seq<nat>)
    requires ClockRuns(calls) && picked != [] && Picks(LogOf(cfg, calls), key, picked)
    requires var log := LogOf(cfg, calls); log[picked[|picked| - 1]].time - log[picked[0]].time < cfg.window as real
    ensures |picked| <= LimitOf(cfg, key)
  {
    var log, n := LogOf(cfg, calls), |picked| - 1;
    PlaceInBucket(log, key, picked[0]);
    PlaceInBucket(log, key, picked[n]);
    PickedPlaces(log, key, picked);
    WindowsHoldAtMostLimit(cfg, calls, key, |Times(log[..picked[0]], key)|, |Times(log[..picked[n]], key)|);
  }

  /** No route of a principal is admitted more often than its limit, and no principal more often than the global
      one, within any stretch shorter than the window. */
  lemma PrincipalsStayWithinLimits(cfg: Config, calls: seq<Call>, principal: string, route: string, picked: seq<nat>)
    requires ClockRuns(calls) && picked != []
    requires var log := LogOf(cfg, calls);
             && (forall a, b :: 0 <= a < b < |picked| ==> picked[a] < picked[b])
             && (forall a :: 0 <= a < |picked| ==> picked[a] < |log| && log[picked[a]].principal == principal)
             && log[picked[|picked| - 1]].time - log[picked[0]].time < cfg.window as real
    ensures |picked| <= cfg.globalLimit
    ensures (forall a :: 0 <= a < |picked| ==> LogOf(cfg, calls)[picked[a]].route == route) ==> |picked| <= cfg.limit
  {
    var log := LogOf(cfg, calls);
    assert GlobalKey(principal)[0] == 'g' && RouteKey(principal, route)[0] == 'r';
    assert forall a :: 0 <= a < |picked| ==> Booked(log[picked[a]], GlobalKey(principal));
    AdmissionsWithinLimits(cfg, calls, GlobalKey(principal), picked);
    if forall a :: 0 <= a < |picked| ==> log[picked[a]].route == route {
      AdmissionsWithinLimits(cfg, calls, RouteKey(principal, route), picked);
    }
  }

  lemma {:induction false} NothingAdmittedWithoutLimits(cfg: Config, calls: seq<Call>)
    requires cfg.limit <= 0 || cfg.globalLimit <= 0
    ensures LogOf(cfg, calls) == []
  {
    if calls != [] {
      var n := |calls| - 1;
      NothingAdmittedWithoutLimits(cfg, calls[..n]);
      AdmittedIffBelowLimits(cfg, [], calls[n].now, calls[n].principal, calls[n].route);
    }
  }

  /** A request fails outright exactly when a limit is configured that is not positive; then every one does. */
  lemma CrashesExactlyWithoutLimits(cfg: Config, calls: seq<Call>, now: real, principal: string, route: string)
    ensures Decide(cfg, LogOf(cfg, calls), now, principal, route) == Crashed <==> cfg.limit <= 0 || cfg.globalLimit <= 0
  {
    if cfg.limit <= 0 || cfg.globalLimit <= 0 { NothingAdmittedWithoutLimits(cfg, calls); }
  }

  /** At no time does a bucket count more than its limit. */
  lemma {:induction false} CountedAtMostLimit(cfg: Config, calls: seq<Call>, key: string, now: real)
    requires ClockRuns(calls) && LimitOf(cfg, key) >= 0
    requires forall c :: c in calls ==> c.now <= now
    ensures |Recent(cfg, Times(LogOf(cfg, calls), key), now)| <= LimitOf(cfg, key)
  {
    if calls != [] {
      var n := |calls| - 1;
      var c := calls[n];
      var log := LogOf(cfg, calls[..n]);
      if Decide(cfg, log, c.now, c.principal, c.route) == Admitted && Booked(Admission(c.now, c.principal, c.route), key) {
        CountAfterAdmission(cfg, log, c, key, now);
      } else {
        CountedAtMostLimit(cfg, calls[..n], key, now);
        TimesAppend(log, Admission(c.now, c.principal, c.route), key);
        assert Times(LogOf(cfg, calls), key) == Times(log, key);
      }
    }
  }

  lemma CountAfterAdmission(cfg: Config, log: seq<Admission>, c: Call, key: string, now: real)
    requires c.now <= now && Booked(Admission(c.now, c.principal, c.route), key)
    requires Decide(cfg, log, c.now, c.principal, c.route) == Admitted
    ensures |Recent(cfg, Times(log + [Admission(c.now, c.principal, c.route)], key), now)| <= LimitOf(cfg, key)
  {
    var times := Times(log, key);
    TimesAppend(log, Admission(c.now, c.principal, c.route), key);
    AdmittedIffBelowLimits(cfg, log, c.now, c.principal, c.route);
    assert |Recent(cfg, times, c.now)| < LimitOf(cfg, key);
    RecentTwice(cfg, times, c.now, now);
    RecentAppend(cfg, times, c.now, now);
  }

  /** A full bucket opens exactly when its oldest counted admission has left the window. */
  lemma BucketReopens(cfg: Config, times: seq<real>, limit: int, now: real, later: real)
    requires Ordered(times) && now <= later && 1 <= limit == |Recent(cfg, times, now)|
    ensures |Recent(cfg, times, later)| < limit <==> later - now >= Due(cfg, Recent(cfg, times, now), now)
  {
    var hits := Recent(cfg, times, now);
    RecentTwice(cfg, times, now, later);
    RecentKeepsOrder(cfg, times, now);
    if later - hits[0] < cfg.window as real {
      RecentIsSuffix(cfg, hits, later, 0);
    } else {
      OldestDropped(cfg, hits, later);
    }
  }

  lemma {:induction false} OldestDropped(cfg: Config, times: seq<real>, now: real)
    requires times != [] && now - times[0] >= cfg.window as real
    ensures |Recent(cfg, times, now)| < |times|
  {
    if |times| > 1 { OldestDropped(cfg, times[..|times| - 1], now); }
  }

  lemma BucketStaysOpen(cfg: Config, times: seq<real>, limit: int, now: real, later: real)
    requires now <= later && |Recent(cfg, times, now)| < limit
    ensures |Recent(cfg, times, later)| < limit
  {
    RecentTwice(cfg, times, now, later);
  }

  /** How often this principal was admitted less than a window ago, on this route or, without one, on any. */
  function AdmittedLately(cfg: Config, log: seq<Admission>, now: real, principal: string, route: string, anyRoute: bool): nat {
    if log == [] then 0
    else
      var last := log[|log| - 1];
      var counts := last.principal == principal && (anyRoute || last.route == route) && now - last.time < cfg.window as real;
      AdmittedLately(cfg, log[..|log| - 1], now, principal, route, anyRoute) + (if counts then 1 else 0)
  }

  /** No other principal of the log shares this route bucket; `PrincipalsShareExactly` says when one can. */
  predicate OwnBucket(log: seq<Admission>, principal: string, route: string) {
    forall a :: a in log && a.principal != principal ==> RouteKey(a.principal, a.route) != RouteKey(principal, route)
  }

  lemma OwnRouteKey(principal: string, route: string, other: string)
    ensures RouteKey(principal, route) == RouteKey(principal, other) <==> route == other
    ensures GlobalKey(principal) == GlobalKey(other) <==> principal == other
  {
    var n := |"route:" + principal + ":"|;
    assert RouteKey(principal, route)[n..] == route && RouteKey(principal, other)[n..] == other;
    assert GlobalKey(principal)[|"global:"|..] == principal && GlobalKey(other)[|"global:"|..] == other;
  }

  lemma BookedExactly(a: Admission, principal: string, route: string)
    requires a.principal != principal ==> RouteKey(a.principal, a.route) != RouteKey(principal, route)
    ensures Booked(a, RouteKey(principal, route)) <==> a.principal == principal && a.route == route
    ensures Booked(a, GlobalKey(principal)) <==> a.principal == principal
  {
    RouteIsNotGlobal(principal, route, a.principal);
    RouteIsNotGlobal(a.principal, a.route, principal);
    OwnRouteKey(principal, route, a.route);
    OwnRouteKey(principal, route, a.principal);
  }

  lemma {:induction false} BucketsCountAdmissions(cfg: Config, log: seq<Admission>, now: real, principal: string, route: string)
    requires OwnBucket(log, principal, route)
    ensures |Recent(cfg, Times(log, RouteKey(principal, route)), now)| == AdmittedLately(cfg, log, now, principal, route, false)
    ensures |Recent(cfg, Times(log, GlobalKey(principal)), now)| == AdmittedLately(cfg, log, now, principal, route, true)
  {
    if log != [] {
      var n := |log| - 1;
      assert log[n] in log && forall a :: a in log[..n] ==> a in log;
      BucketsCountAdmissions(cfg, log[..n], now, principal, route);
      BookedExactly(log[n], principal, route);
      BucketGrows(cfg, log, now, RouteKey(principal, route));
      BucketGrows(cfg, log, now, GlobalKey(principal));
    }
  }

  lemma BucketGrows(cfg: Config, log: seq<Admission>, now: real, key: string)
    requires log != []
    ensures var n := |log| - 1;
            |Recent(cfg, Times(log, key), now)| == |Recent(cfg, Times(log[..n], key), now)|
              + (if Booked(log[n], key) && now - log[n].time < cfg.window as real then 1 else 0)
  {
    var n := |log| - 1;
    var before := Times(log[..n], key);
    if Booked(log[n], key) { RecentAppend(cfg, before, log[n].time, now); } else { assert before + [] == before; }
  }

  /** The rule in plain terms: a request is admitted exactly if its principal was admitted less than the route limit
      on this route, and less than the global limit in all, within the last window. */
  lemma AdmittedExactly(cfg: Config, log: seq<Admission>, now: real, principal: string, route: string)
    requires OwnBucket(log, principal, route)
    ensures Decide(cfg, log, now, principal, route) == Admitted <==>
              && AdmittedLately(cfg, log, now, principal, route, false) < cfg.limit
              && AdmittedLately(cfg, log, now, principal, route, true) < cfg.globalLimit
  {
    AdmittedIffBelowLimits(cfg, log, now, principal, route);
    BucketsCountAdmissions(cfg, log, now, principal, route);
  }

  /** How long a bucket keeps refusing if nothing more is booked in it; nothing when it is open. */
  function BucketDue(cfg: Config, times: seq<real>, limit: int, now: real): real {
    var hits := Recent(cfg, times, now);
    if hits != [] && |hits| >= limit then Due(cfg, hits, now) else 0.0
  }

  function DueTime(cfg: Config, log: seq<Admission>, now: real, principal: string, route: string): real {
    var a := BucketDue(cfg, Times(log, RouteKey(principal, route)), cfg.limit, now);
    var b := BucketDue(cfg, Times(log, GlobalKey(principal)), cfg.globalLimit, now);
    if a < b then b else a
  }

  lemma BucketAfterDue(cfg: Config, times: seq<real>, limit: int, now: real, later: real)
    requires Ordered(times) && now <= later && limit >= 1 && |Recent(cfg, times, now)| <= limit
    ensures |Recent(cfg, times, later)| < limit <==> later - now >= BucketDue(cfg, times, limit, now)
  {
    if |Recent(cfg, times, now)| < limit {
      BucketStaysOpen(cfg, times, limit, now, later);
    } else {
      BucketReopens(cfg, times, limit, now, later);
    }
  }

  lemma WaitRoundsUp(cfg: Config, times: seq<real>, limit: int, now: real)
    requires limit >= 1
    ensures var wait, due := WaitFor(cfg, times, limit, now), BucketDue(cfg, times, limit, now);
            if |Recent(cfg, times, now)| >= limit then wait as real - 1.0 <= due < wait as real else wait == 0 && due == 0.0
    ensures BucketDue(cfg, times, limit, now) >= 0.0
  {
    var hits := Recent(cfg, times, now);
    if hits != [] { assert hits[0] in hits; }
  }

  /** A refused caller for whom nothing more is booked is admitted again exactly from the due time on, and the
      advertised delay is that time rounded up to a whole second (one more if it is whole already). */
  lemma RefusedExactlyUntilDue(cfg: Config, calls: seq<Call>, now: real, principal: string, route: string,
                               log': seq<Admission>, later: real)
    requires ClockRuns(calls) && (forall c :: c in calls ==> c.now <= now) && now <= later
    requires Decide(cfg, LogOf(cfg, calls), now, principal, route).Refused?
    requires Times(log', RouteKey(principal, route)) == Times(LogOf(cfg, calls), RouteKey(principal, route))
    requires Times(log', GlobalKey(principal)) == Times(LogOf(cfg, calls), GlobalKey(principal))
    ensures var log := LogOf(cfg, calls);
            var due := DueTime(cfg, log, now, principal, route);
            var retry := Decide(cfg, log, now, principal, route).retryAfter;
            && (Decide(cfg, log', later, principal, route) == Admitted <==> later - now >= due)
            && retry as real - 1.0 <= due < retry as real
  {
    var log := LogOf(cfg, calls);
    var rk, gk := RouteKey(principal, route), GlobalKey(principal);
    CrashesExactlyWithoutLimits(cfg, calls, now, principal, route);
    CountedAtMostLimit(cfg, calls, rk, now);
    CountedAtMostLimit(cfg, calls, gk, now);
    TimesAreOrdered(cfg, calls, rk);
    TimesAreOrdered(cfg, calls, gk);
    BucketAfterDue(cfg, Times(log, rk), cfg.limit, now, later);
    BucketAfterDue(cfg, Times(log, gk), cfg.globalLimit, now, later);
    AdmittedIffBelowLimits(cfg, log', later, principal, route);
    WaitRoundsUp(cfg, Times(log, rk), cfg.limit, now);
    WaitRoundsUp(cfg, Times(log, gk), cfg.globalLimit, now);
  }

  // ---------------------------------------------------------------- bucket keys

  lemma {:induction false} SplitAtFirst(a: string, b: string, a': string, b': string, mark: char)
    requires mark !in a && mark !in a' && a + [mark] + b == a' + [mark] + b'
    ensures a == a' && b == b'
  {
    var s := a + [mark] + b;
    assert s[0] == (if a == "" then mark else a[0]) && s[0] == (if a' == "" then mark else a'[0]);
    if a == "" {
      assert s[1..] == b && s[1..] == b';
    } else {
      assert s[1..] == a[1..] + [mark] + b && s[1..] == a'[1..] + [mark] + b';
      SplitAtFirst(a[1..], b, a'[1..], b', mark);
      assert a == [a[0]] + a[1..] && a' == [a'[0]] + a'[1..];
    }
  }

  lemma {:induction false} SplitAtLast(a: string, b: string, a': string, b': string, mark: char)
    requires mark !in b && mark !in b' && a + [mark] + b == a' + [mark] + b'
    ensures a == a' && b == b'
    decreases |b|
  {
    var s := a + [mark] + b;
    var n := |s| - 1;
    assert s[n] == (if b == "" then mark else b[|b| - 1]) && s[n] == (if b' == "" then mark else b'[|b'| - 1]);
    if b == "" {
      assert s[..n] == a && s[..n] == a';
    } else {
      var k, k' := |b| - 1, |b'| - 1;
      assert s[..n] == a + [mark] + b[..k] && s[..n] == a' + [mark] + b'[..k'];
      SplitAtLast(a, b[..k], a', b'[..k'], mark);
      assert b == b[..k] + [b[k]] && b' == b'[..k'] + [b'[k']];
    }
  }

  /** Principals without a space never share a route bucket; a method holds neither space nor colon. */
  lemma RouteKeysAreDistinct(p: string, verb: string, path: string, p': string, verb': string, path': string)
    requires ' ' !in p && ' ' !in p' && ' ' !in verb && ' ' !in verb' && ':' !in verb && ':' !in verb'
    requires RouteKey(p, verb + " " + path) == RouteKey(p', verb' + " " + path')
    ensures p == p' && verb == verb' && path == path'
  {
    var head, head' := p + ":" + verb, p' + ":" + verb';
    assert RouteKey(p, verb + " " + path) == "route:" + (head + " " + path);
    assert RouteKey(p', verb' + " " + path') == "route:" + (head' + " " + path');
    assert ("route:" + (head + " " + path))[6..] == head + " " + path;
    assert ("route:" + (head' + " " + path'))[6..] == head' + " " + path';
    SplitAtFirst(head, path, head', path', ' ');
    SplitAtLast(p, verb, p', verb', ':');
  }

  function Route(verb: string, path: string): string {
    verb + " " + path
  }

  predicate Verb(verb: string) {
    ' ' !in verb && ':' !in verb
  }

  /** Some request of each would use the same route bucket. */
  ghost predicate ShareABucket(p: string, q: string) {
    exists v, r, v', r' :: Verb(v) && Verb(v') && RouteKey(p, Route(v, r)) == RouteKey(q, Route(v', r'))
  }

  /** `q` is `p` followed by what looks like a route. */
  ghost predicate Extends(q: string, p: string) {
    exists v, rest :: Verb(v) && q == p + ":" + Route(v, rest)
  }

  lemma KeyBody(p: string, r: string)
    ensures RouteKey(p, r)[6..] == p + ":" + r
  {
  }

  /** The part of the longer principal behind the shorter one is a route: its colon is not in the verb, and it is
      too long to end before the space. */
  lemma LongerBody(p: string, v: string, r: string, q: string, t: string)
    requires Verb(v) && |p| < |q| && p + ":" + (v + " " + r) == q + ":" + t
    ensures |q| > |p| + 1 + |v| && q[|p|] == ':' && q[|p| + 1 + |v|] == ' '
    ensures q[..|p|] == p && q[|p| + 1..|p| + 1 + |v|] == v
  {
    var body, k := q + ":" + t, |p| + 1 + |v|;
    assert body[|q|] == ':' && body[k] == ' ' && body[|p|] == ':';
    assert forall i :: |p| < i < k ==> body[i] == v[i - |p| - 1];
    assert body[..|p|] == p && body[|p| + 1..k] == v;
  }

  lemma FromParts(q: string, p: string, v: string)
    requires |q| > |p| + 1 + |v| && q[|p|] == ':' && q[|p| + 1 + |v|] == ' '
    requires q[..|p|] == p && q[|p| + 1..|p| + 1 + |v|] == v
    ensures q == p + ":" + Route(v, q[|p| + 2 + |v|..])
  {
    var k := |p| + 1 + |v|;
    assert q == q[..|p|] + [q[|p|]] + q[|p| + 1..k] + [q[k]] + q[k + 1..];
  }

  lemma LongerExtends(p: string, v: string, r: string, q: string, v': string, r': string)
    requires Verb(v) && |p| < |q| && RouteKey(p, Route(v, r)) == RouteKey(q, Route(v', r'))
    ensures Extends(q, p)
  {
    KeyBody(p, Route(v, r));
    KeyBody(q, Route(v', r'));
    LongerBody(p, v, r, q, Route(v', r'));
    FromParts(q, p, v);
  }

  lemma SameKey(q: string, p: string, v: string, rest: string)
    requires q == p + ":" + (v + " " + rest)
    ensures RouteKey(p, Route(v, rest + ":GET /")) == RouteKey(q, "GET /")
  {
    assert v + " " + (rest + ":GET /") == v + " " + rest + ":GET /";
    assert p + ":" + (v + " " + rest + ":GET /") == q + ":" + "GET /";
  }

  lemma ExtensionShares(q: string, p: string)
    requires Extends(q, p)
    ensures ShareABucket(p, q)
  {
    var v, rest :| Verb(v) && q == p + ":" + Route(v, rest);
    SameKey(q, p, v, rest);
    assert Verb("GET") && Route("GET", "/") == "GET /";
    assert RouteKey(p, Route(v, rest + ":GET /")) == RouteKey(q, Route("GET", "/"));
  }

  /** Two principals can share a route bucket exactly when one is the other followed by a route. */
  lemma PrincipalsShareExactly(p: string, q: string)
    requires p != q
    ensures ShareABucket(p, q) <==> Extends(p, q) || Extends(q, p)
  {
    if v, r, v', r' :| Verb(v) && Verb(v') && RouteKey(p, Route(v, r)) == RouteKey(q, Route(v', r')) {
      if |p| < |q| {
        LongerExtends(p, v, r, q, v', r');
      } else if |q| < |p| {
        LongerExtends(q, v', r', p, v, r);
      } else {
        SameLength(p, Route(v, r), q, Route(v', r'));
      }
    }
    if Extends(q, p) { ExtensionShares(q, p); }
    if Extends(p, q) {
      ExtensionShares(p, q);
      var v, r, v', r' :| Verb(v) && Verb(v') && RouteKey(q, Route(v, r)) == RouteKey(p, Route(v', r'));
      assert RouteKey(p, Route(v', r')) == RouteKey(q, Route(v, r));
    }
  }

  lemma SameLength(p: string, r: string, q: string, r': string)
    requires |p| == |q| && RouteKey(p, r) == RouteKey(q, r')
    ensures p == q
  {
    assert RouteKey(p, r)[6..6 + |p|] == p && RouteKey(q, r')[6..6 + |q|] == q;
  }

  /** A user id with a space can share the bucket of another user. */
  lemma RouteKeysCanCollide()
    ensures RouteKey("user:1", "GET /a:GET /b") == RouteKey("user:1:GET /a", "GET /b")
  {
  }

  // ---------------------------------------------------------------- the limiter

  function Stored(store: map<string, seq<real>>, key: string): seq<real> {
    if key in store then store[key] else []
  }

  /** The pruned lists, and everything the limiter has admitted. */
  datatype Limiter = Limiter(store: map<string, seq<real>>, log: seq<Admission>)

  /** One request: prune both buckets, then refuse or book. */
  function Take(cfg: Config, l: Limiter, c: Call): (Decision, Limiter) {
    var a, b := RouteKey(c.principal, c.route), GlobalKey(c.principal);
    var decision := DecideOn(cfg, Stored(l.store, a), Stored(l.store, b), c.now);
    var as', bs := Recent(cfg, Stored(l.store, a), c.now), Recent(cfg, Stored(l.store, b), c.now);
    match decision
    case Crashed => (Crashed, l)
    case Refused(_) => (decision, Limiter(l.store[a := as'][b := bs], l.log))
    case Admitted => (Admitted, Limiter(Book(l.store, a, as', b, bs, c.now), l.log + [Admission(c.now, c.principal, c.route)]))
  }

  function LimiterRun(cfg: Config, calls: seq<Call>): Limiter {
    if calls == [] then Limiter(map[], [])
    else Take(cfg, LimiterRun(cfg, calls[..|calls| - 1]), calls[|calls| - 1]).1
  }

  class RateLimiter {
    const cfg: Config
    var store: map<string, seq<real>>
    /** Every admission, never pruned, and the latest time seen. */
    ghost var log: seq<Admission>
    ghost var latest: real

    /** From the latest time on, the pruned lists count what the full log counts. */
    ghost predicate Valid()
      reads this
    {
      Agrees(cfg, store, log, latest)
    }

    constructor (cfg: Config)
      ensures Valid() && log == [] && this.cfg == cfg
    {
      this.cfg := cfg;
      store, log, latest := map[], [], 0.0;
    }

    /** One bucket: what still counts, and how long to wait if it is full. */
    method CheckBucket(key: string, limit: int, now: real, retryAfter: nat) returns (hits: seq<real>, retry: nat, crashed: bool)
      ensures hits == Recent(cfg, Stored(store, key), now)
      ensures crashed <==> Fails(cfg, Stored(store, key), limit, now)
      ensures !crashed ==> retry == Larger(retryAfter, WaitFor(cfg, Stored(store, key), limit, now))
    {
      hits := Recent(cfg, Stored(store, key), now);
      retry, crashed := retryAfter, false;
      if |hits| >= limit {
        if hits == [] { return hits, retry, true; }
        assert hits[0] in hits;
        retry := Larger(retry, (cfg.window as real - (now - hits[0])).Floor + 1);
      }
    }

    /** One request. While the clock does not run back, the decision is that of the full log. */
    method RateLimit(now: real, internal: bool, principal: string, route: string) returns (decision: Decision)
      requires Valid()
      modifies this
      ensures Valid()
      ensures internal ==> decision == Admitted && log == old(log) && store == old(store)
      ensures !internal ==> (decision, Limiter(store, log)) == Take(cfg, Limiter(old(store), old(log)), Call(now, principal, route))
      ensures !internal && now >= old(latest) ==> decision == Decide(cfg, old(log), now, principal, route)
      ensures latest == if internal || now < old(latest) then old(latest) else now
    {
      if internal { return Admitted; }
      var routeKey, globalKey := RouteKey(principal, route), GlobalKey(principal);
      if now >= latest { SameDecision(cfg, store, log, latest, now, principal, route); }
      TakeAgrees(cfg, Limiter(store, log), Call(now, principal, route), latest);
      latest := if now < latest then latest else now;
      var routeHits, retryAfter, crashed := CheckBucket(routeKey, cfg.limit, now, 0);
      if crashed { return Crashed; }
      var globalHits;
      globalHits, retryAfter, crashed := CheckBucket(globalKey, cfg.globalLimit, now, retryAfter);
      if crashed { return Crashed; }
      if retryAfter > 0 {
        store := store[routeKey := routeHits][globalKey := globalHits];
        return Refused(retryAfter);
      }
      store := store[routeKey := routeHits + [now]][globalKey := globalHits + [now]];
      log := log + [Admission(now, principal, route)];
      return Admitted;
    }
  }

  lemma BookAgrees(cfg: Config, store: map<string, seq<real>>, log: seq<Admission>, c: Call, from: real)
    requires Agrees(cfg, store, log, from) && c.now <= from
    ensures var a, b := RouteKey(c.principal, c.route), GlobalKey(c.principal);
            Agrees(cfg, Book(store, a, Recent(cfg, Stored(store, a), c.now), b, Recent(cfg, Stored(store, b), c.now), c.now),
                   log + [Admission(c.now, c.principal, c.route)], from)
  {
    var a, b := RouteKey(c.principal, c.route), GlobalKey(c.principal);
    var as', bs := Recent(cfg, Stored(store, a), c.now), Recent(cfg, Stored(store, b), c.now);
    RouteIsNotGlobal(c.principal, c.route, c.principal);
    PruningIsInvisible(cfg, store, log, c.now, a, b, from);
    BookingIsVisible(cfg, store[a := as'][b := bs], log, Admission(c.now, c.principal, c.route), from);
    BookPruned(store, a, as', b, bs, c.now);
  }

  lemma BookPruned(store: map<string, seq<real>>, a: string, as': seq<real>, b: string, bs: seq<real>, now: real)
    requires a != b
    ensures var pruned := store[a := as'][b := bs];
            && Stored(pruned, a) == as' && Stored(pruned, b) == bs
            && Book(pruned, a, as', b, bs, now) == Book(store, a, as', b, bs, now)
  {
  }

  /** A request keeps the pruned lists equivalent to the full log. */
  lemma TakeAgrees(cfg: Config, l: Limiter, c: Call, latest: real)
    requires Agrees(cfg, l.store, l.log, latest)
    ensures var l' := Take(cfg, l, c).1; Agrees(cfg, l'.store, l'.log, if c.now < latest then latest else c.now)
  {
    var from := if c.now < latest then latest else c.now;
    AgreesLater(cfg, l.store, l.log, latest, from);
    match Take(cfg, l, c).0 {
      case Crashed =>
      case Refused(_) =>
        RouteIsNotGlobal(c.principal, c.route, c.principal);
        PruningIsInvisible(cfg, l.store, l.log, c.now, RouteKey(c.principal, c.route), GlobalKey(c.principal), from);
      case Admitted => BookAgrees(cfg, l.store, l.log, c, from);
    }
  }

  function Book(store: map<string, seq<real>>, a: string, as': seq<real>, b: string, bs: seq<real>, now: real): map<string, seq<real>> {
    store[a := as' + [now]][b := bs + [now]]
  }

  ghost predicate Agrees(cfg: Config, store: map<string, seq<real>>, log: seq<Admission>, from: real) {
    forall key, now :: now >= from ==> Recent(cfg, Stored(store, key), now) == Recent(cfg, Times(log, key), now)
  }

  lemma AgreesLater(cfg: Config, store: map<string, seq<real>>, log: seq<Admission>, from: real, later: real)
    requires Agrees(cfg, store, log, from) && from <= later
    ensures Agrees(cfg, store, log, later)
  {
  }

  /** Equal counts make equal decisions. */
  lemma SameDecision(cfg: Config, store: map<string, seq<real>>, log: seq<Admission>, from: real, now: real,
                     principal: string, route: string)
    requires Agrees(cfg, store, log, from) && from <= now
    ensures DecideOn(cfg, Stored(store, RouteKey(principal, route)), Stored(store, GlobalKey(principal)), now)
         == Decide(cfg, log, now, principal, route)
  {
  }

  lemma PruningIsInvisible(cfg: Config, store: map<string, seq<real>>, log: seq<Admission>, now: real, a: string, b: string, from: real)
    requires now <= from && a != b && Agrees(cfg, store, log, from)
    ensures Agrees(cfg, store[a := Recent(cfg, Stored(store, a), now)][b := Recent(cfg, Stored(store, b), now)], log, from)
  {
    var pruned := store[a := Recent(cfg, Stored(store, a), now)][b := Recent(cfg, Stored(store, b), now)];
    forall key, later | later >= from ensures Recent(cfg, Stored(pruned, key), later) == Recent(cfg, Times(log, key), later) {
      RecentTwice(cfg, Stored(store, key), now, later);
      assert Recent(cfg, Stored(store, key), later) == Recent(cfg, Times(log, key), later);
    }
  }

  lemma BookingIsVisible(cfg: Config, store: map<string, seq<real>>, log: seq<Admission>, a: Admission, from: real)
    requires Agrees(cfg, store, log, from)
    ensures var rk, gk := RouteKey(a.principal, a.route), GlobalKey(a.principal);
            Agrees(cfg, Book(store, rk, Stored(store, rk), gk, Stored(store, gk), a.time), log + [a], from)
  {
    var rk, gk := RouteKey(a.principal, a.route), GlobalKey(a.principal);
    RouteIsNotGlobal(a.principal, a.route, a.principal);
    var store' := Book(store, rk, Stored(store, rk), gk, Stored(store, gk), a.time);
    forall key, now | now >= from ensures Recent(cfg, Stored(store', key), now) == Recent(cfg, Times(log + [a], key), now) {
      TimesAppend(log, a, key);
      assert Recent(cfg, Stored(store, key), now) == Recent(cfg, Times(log, key), now);
      if Booked(a, key) {
        assert Stored(store', key) == Stored(store, key) + [a.time];
        RecentAppend(cfg, Stored(store, key), a.time, now);
        RecentAppend(cfg, Times(log, key), a.time, now);
      } else {
        assert Stored(store', key) == Stored(store, key) && Times(log, key) + [] == Times(log, key);
      }
    }
  }

  // ---------------------------------------------------------------- what pruning forgets

  predicate Touches(c: Call, key: string) {
    key == RouteKey(c.principal, c.route) || key == GlobalKey(c.principal)
  }

  /** The times that no longer count. */
  function Outdated(cfg: Config, times: seq<real>, now: real): (old': seq<real>)
    ensures forall t :: t in old' <==> t in times && now - t >= cfg.window as real
  {
    if times == [] then []
    else
      var last := times[|times| - 1];
      Outdated(cfg, times[..|times| - 1], now) + (if now - last >= cfg.window as real then [last] else [])
  }

  /** The admissions of a bucket that some request has pruned. */
  function Forgotten(cfg: Config, calls: seq<Call>, key: string): seq<real> {
    if calls == [] then []
    else
      var n := |calls| - 1;
      var l := LimiterRun(cfg, calls[..n]);
      Forgotten(cfg, calls[..n], key)
      + (if Touches(calls[n], key) && Take(cfg, l, calls[n]).0 != Crashed then Outdated(cfg, Stored(l.store, key), calls[n].now) else [])
  }

  lemma {:induction false} RecentConcat(cfg: Config, a: seq<real>, b: seq<real>, now: real)
    ensures |Recent(cfg, a + b, now)| == |Recent(cfg, a, now)| + |Recent(cfg, b, now)|
  {
    if b == [] {
      assert a + b == a;
    } else {
      var n := |b| - 1;
      RecentConcat(cfg, a, b[..n], now);
      assert (a + b)[..|a + b| - 1] == a + b[..n];
    }
  }

  lemma {:induction false} PruningSplits(cfg: Config, times: seq<real>, pruned: real, now: real)
    ensures |Recent(cfg, times, now)|
         == |Recent(cfg, Recent(cfg, times, pruned), now)| + |Recent(cfg, Outdated(cfg, times, pruned), now)|
  {
    if times != [] {
      var n := |times| - 1;
      PruningSplits(cfg, times[..n], pruned, now);
      var kept, old' := Recent(cfg, times[..n], pruned), Outdated(cfg, times[..n], pruned);
      if pruned - times[n] < cfg.window as real {
        assert Recent(cfg, times, pruned) == kept + [times[n]] && Outdated(cfg, times, pruned) == old';
        RecentAppend(cfg, kept, times[n], now);
      } else {
        assert Recent(cfg, times, pruned) == kept && Outdated(cfg, times, pruned) == old' + [times[n]];
        RecentAppend(cfg, old', times[n], now);
      }
    }
  }

  lemma StoredAfter(store: map<string, seq<real>>, a: string, as': seq<real>, b: string, bs: seq<real>, now: real, key: string)
    requires a != b
    ensures Stored(store[a := as'][b := bs], key) == if key == a then as' else if key == b then bs else Stored(store, key)
    ensures Stored(Book(store, a, as', b, bs, now), key)
         == if key == a then as' + [now] else if key == b then bs + [now] else Stored(store, key)
  {
  }

  /** What a request leaves in one bucket. */
  lemma TakeStored(cfg: Config, l: Limiter, c: Call, key: string)
    requires Take(cfg, l, c).0 != Crashed
    ensures var (decision, l') := Take(cfg, l, c);
            && (!Touches(c, key) ==> Stored(l'.store, key) == Stored(l.store, key))
            && (Touches(c, key) ==>
                  Stored(l'.store, key) == Recent(cfg, Stored(l.store, key), c.now) + (if decision == Admitted then [c.now] else []))
  {
    var a, b := RouteKey(c.principal, c.route), GlobalKey(c.principal);
    var as', bs := Recent(cfg, Stored(l.store, a), c.now), Recent(cfg, Stored(l.store, b), c.now);
    RouteIsNotGlobal(c.principal, c.route, c.principal);
    StoredAfter(l.store, a, as', b, bs, c.now, key);
    assert as' + [] == as' && bs + [] == bs;
  }

  /** What it adds to the full log of the bucket. */
  lemma TakeTimes(cfg: Config, l: Limiter, c: Call, key: string)
    ensures var (decision, l') := Take(cfg, l, c);
            Times(l'.log, key) == Times(l.log, key) + (if decision == Admitted && Touches(c, key) then [c.now] else [])
  {
    TimesAppend(l.log, Admission(c.now, c.principal, c.route), key);
    assert Times(l.log, key) + [] == Times(l.log, key);
  }

  /** Over any run, with any clock, stored and forgotten admissions make up all of them. */
  lemma {:induction false} StoredAndForgotten(cfg: Config, calls: seq<Call>, key: string, now: real)
    ensures var l := LimiterRun(cfg, calls);
            |Recent(cfg, Times(l.log, key), now)|
              == |Recent(cfg, Stored(l.store, key), now)| + |Recent(cfg, Forgotten(cfg, calls, key), now)|
  {
    if calls != [] {
      var n := |calls| - 1;
      StoredAndForgotten(cfg, calls[..n], key, now);
      OneMoreForgotten(cfg, LimiterRun(cfg, calls[..n]), calls[n], key, Forgotten(cfg, calls[..n], key), now);
    }
  }

  /** One bucket, pruned and perhaps booked. */
  lemma BucketCounts(cfg: Config, times: seq<real>, stored: seq<real>, forgotten: seq<real>, booked: seq<real>, pruned: real, now: real)
    requires |Recent(cfg, times, now)| == |Recent(cfg, stored, now)| + |Recent(cfg, forgotten, now)|
    ensures |Recent(cfg, times + booked, now)|
         == |Recent(cfg, Recent(cfg, stored, pruned) + booked, now)| + |Recent(cfg, forgotten + Outdated(cfg, stored, pruned), now)|
  {
    RecentConcat(cfg, times, booked, now);
    RecentConcat(cfg, Recent(cfg, stored, pruned), booked, now);
    RecentConcat(cfg, forgotten, Outdated(cfg, stored, pruned), now);
    PruningSplits(cfg, stored, pruned, now);
  }

  lemma OneMoreForgotten(cfg: Config, l: Limiter, c: Call, key: string, forgotten: seq<real>, now: real)
    requires |Recent(cfg, Times(l.log, key), now)| == |Recent(cfg, Stored(l.store, key), now)| + |Recent(cfg, forgotten, now)|
    ensures var (decision, l') := Take(cfg, l, c);
            var more := if Touches(c, key) && decision != Crashed then Outdated(cfg, Stored(l.store, key), c.now) else [];
            |Recent(cfg, Times(l'.log, key), now)| == |Recent(cfg, Stored(l'.store, key), now)| + |Recent(cfg, forgotten + more, now)|
  {
    var decision := Take(cfg, l, c).0;
    TakeTimes(cfg, l, c, key);
    assert Times(l.log, key) + [] == Times(l.log, key) && forgotten + [] == forgotten;
    if decision != Crashed {
      TakeStored(cfg, l, c, key);
      BucketCounts(cfg, Times(l.log, key), Stored(l.store, key), forgotten,
                   if decision == Admitted then [c.now] else [], c.now, now);
    }
  }

  /** At any time, also after the clock stepped back, a bucket counts all admissions that the full log counts
      exactly when none of those it forgot would count. */
  lemma CountsAllExactly(cfg: Config, calls: seq<Call>, key: string, now: real)
    ensures var l := LimiterRun(cfg, calls);
            (|Recent(cfg, Stored(l.store, key), now)| == |Recent(cfg, Times(l.log, key), now)|)
              <==> (forall t :: t in Forgotten(cfg, calls, key) ==> now - t >= cfg.window as real)
  {
    StoredAndForgotten(cfg, calls, key, now);
    var counted := Recent(cfg, Forgotten(cfg, calls, key), now);
    assert counted != [] ==> counted[0] in counted;
  }

  /** Nothing is forgotten before it is a window old at some request. */
  lemma {:induction false} ForgottenIsOld(cfg: Config, calls: seq<Call>, key: string, t: real)
    requires t in Forgotten(cfg, calls, key)
    ensures exists i :: 0 <= i < |calls| && calls[i].now - t >= cfg.window as real
  {
    var n := |calls| - 1;
    if t in Forgotten(cfg, calls[..n], key) {
      ForgottenIsOld(cfg, calls[..n], key, t);
      var i :| 0 <= i < n && calls[..n][i].now - t >= cfg.window as real;
      assert calls[i].now - t >= cfg.window as real;
    }
  }

  /** While no request comes before an earlier one, nothing forgotten counts: the limiter admits exactly what the
      full log of its admissions would. */
  lemma AdmitsLikeFullLog(cfg: Config, calls: seq<Call>, c: Call)
    requires forall i :: 0 <= i < |calls| ==> calls[i].now <= c.now
    ensures var l := LimiterRun(cfg, calls);
            Take(cfg, l, c).0 == Admitted <==> Decide(cfg, l.log, c.now, c.principal, c.route) == Admitted
  {
    var l := LimiterRun(cfg, calls);
    var a, b := RouteKey(c.principal, c.route), GlobalKey(c.principal);
    forall key, t | t in Forgotten(cfg, calls, key) ensures c.now - t >= cfg.window as real { ForgottenIsOld(cfg, calls, key, t); }
    CountsAllExactly(cfg, calls, a, c.now);
    CountsAllExactly(cfg, calls, b, c.now);
    AdmittedIffBelowLimits(cfg, l.log, c.now, c.principal, c.route);
    BucketOpen(cfg, Stored(l.store, a), cfg.limit, c.now);
    BucketOpen(cfg, Stored(l.store, b), cfg.globalLimit, c.now);
  }

  /** With a clock that does not run back, the limiter's log is the log that never forgets. */
  lemma {:induction false} LimiterKeepsFullLog(cfg: Config, calls: seq<Call>)
    requires ClockRuns(calls)
    ensures LimiterRun(cfg, calls).log == LogOf(cfg, calls)
  {
    if calls != [] {
      var n := |calls| - 1;
      LimiterKeepsFullLog(cfg, calls[..n]);
      AdmitsLikeFullLog(cfg, calls[..n], calls[n]);
    }
  }

  // ---------------------------------------------------------------- a clock that steps back

  const TWO_A_MINUTE := Config(2, 8, 60)

  lemma AdmitAlike(p: string, r: string, l: Limiter, times: seq<real>, now: real)
    requires Stored(l.store, RouteKey(p, r)) == times && Stored(l.store, GlobalKey(p)) == times
    requires |Recent(TWO_A_MINUTE, times, now)| < 2
    ensures var (decision, l') := Take(TWO_A_MINUTE, l, Call(now, p, r));
            && decision == Admitted && l'.log == l.log + [Admission(now, p, r)]
            && Stored(l'.store, RouteKey(p, r)) == Stored(l'.store, GlobalKey(p)) == Recent(TWO_A_MINUTE, times, now) + [now]
  {
    RouteIsNotGlobal(p, r, p);
    BucketOpen(TWO_A_MINUTE, times, 2, now);
    BucketOpen(TWO_A_MINUTE, times, 8, now);
  }

  lemma RunNext(cfg: Config, calls: seq<Call>, c: Call)
    ensures LimiterRun(cfg, calls + [c]) == Take(cfg, LimiterRun(cfg, calls), c).1
  {
    assert (calls + [c])[..|calls|] == calls;
  }

  /** The limiter has admitted requests at these times, and the last few of them are stored in both buckets. */
  ghost predicate Holds(l: Limiter, p: string, r: string, admitted: seq<real>, stored: seq<real>) {
    && |l.log| == |admitted| && (forall i :: 0 <= i < |admitted| ==> l.log[i] == Admission(admitted[i], p, r))
    && Stored(l.store, RouteKey(p, r)) == stored && Stored(l.store, GlobalKey(p)) == stored
  }

  lemma AdmitNext(p: string, r: string, calls: seq<Call>, admitted: seq<real>, stored: seq<real>, now: real)
    requires Holds(LimiterRun(TWO_A_MINUTE, calls), p, r, admitted, stored)
    requires |Recent(TWO_A_MINUTE, stored, now)| < 2
    ensures Holds(LimiterRun(TWO_A_MINUTE, calls + [Call(now, p, r)]), p, r, admitted + [now],
                  Recent(TWO_A_MINUTE, stored, now) + [now])
  {
    RunNext(TWO_A_MINUTE, calls, Call(now, p, r));
    AdmitAlike(p, r, LimiterRun(TWO_A_MINUTE, calls), stored, now);
  }

  /** Two requests at 0, one at 100, one at 50. */
  function StepBackCalls(p: string, r: string): seq<Call> {
    [] + [Call(0.0, p, r)] + [Call(0.0, p, r)] + [Call(100.0, p, r)] + [Call(50.0, p, r)]
  }

  lemma FirstTwoAdmitted(p: string, r: string)
    ensures Holds(LimiterRun(TWO_A_MINUTE, [] + [Call(0.0, p, r)] + [Call(0.0, p, r)]), p, r, [] + [0.0] + [0.0], [0.0] + [0.0])
  {
    CountOne(0.0, 0.0);
    AdmitNext(p, r, [], [], [], 0.0);
    AdmitNext(p, r, [] + [Call(0.0, p, r)], [] + [0.0], [] + [0.0], 0.0);
  }

  lemma StepBackAdmits(p: string, r: string)
    ensures Holds(LimiterRun(TWO_A_MINUTE, StepBackCalls(p, r)), p, r, [] + [0.0] + [0.0] + [100.0] + [50.0], [100.0] + [50.0])
  {
    var c := Call(0.0, p, r);
    FirstTwoAdmitted(p, r);
    CountTwo(0.0, 0.0, 100.0);
    CountOne(100.0, 50.0);
    AdmitNext(p, r, [] + [c] + [c], [] + [0.0] + [0.0], [0.0] + [0.0], 100.0);
    AdmitNext(p, r, [] + [c] + [c] + [Call(100.0, p, r)], [] + [0.0] + [0.0] + [100.0], [] + [100.0], 50.0);
  }

  /** A run in which the clock steps back: all four requests are admitted, three of them within one minute, though
      the limit is two. */
  lemma ClockStepsBack(p: string, r: string)
    ensures var log := LimiterRun(TWO_A_MINUTE, StepBackCalls(p, r)).log;
            && |log| == 4 && (forall i :: 0 <= i < 4 ==> log[i].principal == p && log[i].route == r)
            && log[0].time == log[1].time == 0.0 && log[3].time == 50.0
    ensures 3 > TWO_A_MINUTE.limit && 50.0 < TWO_A_MINUTE.window as real
  {
    StepBackAdmits(p, r);
    var admitted := [] + [0.0] + [0.0] + [100.0] + [50.0];
    assert admitted[0] == 0.0 && admitted[1] == 0.0 && admitted[3] == 50.0;
  }

  lemma CountOne(t: real, now: real)
    requires now - t < 60.0
    ensures Recent(TWO_A_MINUTE, [t], now) == [t] && Recent(TWO_A_MINUTE, [], now) == []
  {
    assert [t][..0] == [];
  }

  lemma CountTwo(t: real, u: real, now: real)
    requires now - t >= 60.0 && now - u >= 60.0
    ensures Recent(TWO_A_MINUTE, [t, u], now) == []
  {
    assert [t, u][..1] == [t] && [t][..0] == [];
  }
}
