/** Whole runs of the rate limiter (live402/server.py) with one limit, one window and a clock that
    does not go back: no window holds more admitted calls of a key than the limit. */
module RateWindow {
  import opened Collections
  import opened RateLimit

  datatype Call = Call(key: string, now: real)

  datatype Config = Config(limit: int, window: real, max: nat)

  /** The map before the n-th call of a run. */
  function Before(c: Config, calls: seq<Call>, n: nat): Hits
    requires n <= |calls|
  {
    if n == 0 then [] else After(c, Before(c, calls, n - 1), calls[n - 1])
  }

  function After(c: Config, d: Hits, call: Call): Hits {
    Allowed(d, call.key, c.limit, call.now, c.window, c.max)
  }

  predicate Admitted(c: Config, calls: seq<Call>, n: nat)
    requires n < |calls|
  {
    Admits(Before(c, calls, n), calls[n].key, c.limit, calls[n].now, c.window)
  }

  /** The call evicts a key that still has hits. */
  predicate Drops(c: Config, d: Hits, call: Call, key: string) {
    && c.limit >= 1
    && HitsOf(Pruned(d, call.key, call.now, c.window, c.max), key) != []
    && HitsOf(Evicted(d, call.key, call.now, c.window, c.max), key) == []
  }

  /** No call from i up to j evicts the key. */
  ghost predicate NeverDropped(c: Config, calls: seq<Call>, i: nat, j: nat, key: string) {
    forall n :: i <= n < j && n < |calls| ==> !Drops(c, Before(c, calls, n), calls[n], key)
  }

  /** The times of the key's admitted calls, from call i up to call j. */
  function AdmittedTimes(c: Config, calls: seq<Call>, i: nat, j: nat, key: string): seq<real>
    requires i <= j <= |calls|
  {
    if i == j then []
    else
      AdmittedTimes(c, calls, i, j - 1, key)
      + if calls[j - 1].key == key && Admitted(c, calls, j - 1) then [calls[j - 1].now] else []
  }

  ghost predicate Monotone(calls: seq<Call>) {
    forall i, j :: 0 <= i <= j < |calls| ==> calls[i].now <= calls[j].now
  }

  // ---- what is recent -----------------------------------------------------------------------

  lemma {:induction false} RecentConcat(a: seq<real>, b: seq<real>, now: real, window: real)
    ensures Recent(a + b, now, window) == Recent(a, now, window) + Recent(b, now, window)
    decreases |b|
  {
    if b == [] {
      assert a + b == a;
    } else {
      RecentConcat(a, b[..|b| - 1], now, window);
      assert (a + b)[..|a + b| - 1] == a + b[..|b| - 1];
    }
  }

  lemma RecentStep(ts: seq<real>, t: real, now: real, window: real)
    ensures Recent(ts + [t], now, window) == Recent(ts, now, window) + (if now - t < window then [t] else [])
  {
    assert (ts + [t])[..|ts|] == ts;
  }

  lemma RecentTwiceStep(older: seq<real>, t: real, now: real, later: real, window: real)
    requires now <= later
    requires Recent(Recent(older, now, window), later, window) == Recent(older, later, window)
    ensures Recent(Recent(older + [t], now, window), later, window) == Recent(older + [t], later, window)
  {
    hide *;
    RecentStep(older, t, now, window);
    RecentStep(older, t, later, window);
    RecentStep(Recent(older, now, window), t, later, window);
    assert Recent(older, now, window) + [] == Recent(older, now, window);
  }

  /** Pruning earlier does not change what is recent later. */
  lemma {:induction false} RecentTwice(ts: seq<real>, now: real, later: real, window: real)
    requires now <= later
    ensures Recent(Recent(ts, now, window), later, window) == Recent(ts, later, window)
    decreases |ts|
  {
    if ts != [] {
      var older, t := ts[..|ts| - 1], ts[|ts| - 1];
      assert ts == older + [t];
      RecentTwice(older, now, later, window);
      RecentTwiceStep(older, t, now, later, window);
    }
  }

  /** All times are less than one window old. */
  ghost predicate Within(ts: seq<real>, now: real, window: real) {
    forall i :: 0 <= i < |ts| ==> now - ts[i] < window
  }

  lemma {:induction false} AllRecent(ts: seq<real>, now: real, window: real)
    requires Within(ts, now, window)
    ensures Recent(ts, now, window) == ts
    decreases |ts|
  {
    if ts != [] { AllRecent(ts[..|ts| - 1], now, window); }
  }

  lemma WithinStep(ts: seq<real>, t: real, now: real, window: real)
    requires Within(ts, now, window) && now - t < window
    ensures Within(ts + [t], now, window)
  {
  }

  // ---- one call -----------------------------------------------------------------------------

  lemma PruneKeepsRecent(d: Hits, key: string, now: real, window: real, k: string, later: real)
    requires UniqueKeys(d) && now <= later
    ensures Recent(HitsOf(PruneKey(d, key, now, window), k), later, window) == Recent(HitsOf(d, k), later, window)
  {
    PruneFacts(d, key, now, window);
    RecentTwice(HitsOf(d, key), now, later, window);
  }

  lemma {:induction false} PassKeepsRecent(d: Hits, keys: seq<string>, now: real, window: real, max: nat, k: string,
                                           later: real)
    requires UniqueKeys(d) && now <= later
    ensures Recent(HitsOf(PrunePass(d, keys, now, window, max), k), later, window)
            == Recent(HitsOf(d, k), later, window)
    decreases |keys|
  {
    if keys != [] {
      PruneFacts(d, keys[0], now, window);
      PruneKeepsRecent(d, keys[0], now, window, k, later);
      PassKeepsRecent(PruneKey(d, keys[0], now, window), keys[1..], now, window, max, k, later);
    }
  }

  /** Eviction takes a key with all its hits or leaves it alone. */
  lemma {:induction false} PopTakesWhole(d: Hits, max: nat, k: string)
    requires UniqueKeys(d)
    ensures UniqueKeys(PopOldest(d, max))
    ensures HitsOf(PopOldest(d, max), k) == HitsOf(d, k) || HitsOf(PopOldest(d, max), k) == []
    decreases |d|
  {
    if d != [] && |d| >= max {
      PopTakesWhole(d[1..], max, k);
      HasTail(d, k);
      if d[0].key == k {
        assert !Has(d[1..], k);
        PopOfNothing(d[1..], max, k);
      }
    }
  }

  lemma {:induction false} PopOfNothing(d: Hits, max: nat, k: string)
    requires !Has(d, k)
    ensures !Has(PopOldest(d, max), k)
    decreases |d|
  {
    if d != [] && |d| >= max {
      HasTail(d, k);
      PopOfNothing(d[1..], max, k);
    }
  }

  lemma EvictedKeepsRecent(c: Config, d: Hits, call: Call, k: string, later: real)
    requires UniqueKeys(d) && call.now <= later && c.limit >= 1 && !Drops(c, d, call, k)
    ensures var room := Evicted(d, call.key, call.now, c.window, c.max);
            UniqueKeys(room) && Recent(HitsOf(room, k), later, c.window) == Recent(HitsOf(d, k), later, c.window)
  {
    hide PruneKey, PrunePass, PopOldest, Recent, HitsOf;
    var own := PruneKey(d, call.key, call.now, c.window);
    PruneFacts(d, call.key, call.now, c.window);
    PruneKeepsRecent(d, call.key, call.now, c.window, k, later);
    PassKeepsRecent(own, KeysOf(own), call.now, c.window, c.max, k, later);
    PrunePassFits(own, KeysOf(own), call.now, c.window, c.max);
    PopTakesWhole(PrunePass(own, KeysOf(own), call.now, c.window, c.max), c.max, k);
  }

  /** What a call does to the recent hits of any key that it does not evict: an admitted call adds
      its time to its own key, and nothing else changes. */
  lemma OneCall(c: Config, d: Hits, call: Call, k: string, later: real)
    requires UniqueKeys(d) && call.now <= later && !Drops(c, d, call, k)
    ensures Recent(HitsOf(After(c, d, call), k), later, c.window)
            == Recent(HitsOf(d, k), later, c.window)
               + (if k == call.key && Admits(d, call.key, c.limit, call.now, c.window)
                  then Recent([call.now], later, c.window) else [])
  {
    hide Evicted, HitsOf, Store, Drops, Recent;
    if c.limit >= 1 {
      EvictedKeepsRecent(c, d, call, k, later);
      var room := Evicted(d, call.key, call.now, c.window, c.max);
      var mine := Recent(HitsOf(d, call.key), call.now, c.window);
      if Admits(d, call.key, c.limit, call.now, c.window) {
        StoreFacts(room, call.key, mine + [call.now]);
        RecentConcat(mine, [call.now], later, c.window);
        RecentTwice(HitsOf(d, call.key), call.now, later, c.window);
      }
    }
  }

  /** A rejected call uses no quota: it evicts no key, and no key's recent hits change. */
  lemma RejectedUseNothing(c: Config, d: Hits, call: Call, k: string, later: real)
    requires UniqueKeys(d) && call.now <= later && !Admits(d, call.key, c.limit, call.now, c.window)
    ensures !Drops(c, d, call, k)
    ensures Recent(HitsOf(After(c, d, call), k), later, c.window) == Recent(HitsOf(d, k), later, c.window)
  {
    PruneFacts(d, call.key, call.now, c.window);
    OneCall(c, d, call, k, later);
  }

  // ---- runs ---------------------------------------------------------------------------------

  lemma {:induction false} StaysBounded(c: Config, calls: seq<Call>, n: nat)
    requires n <= |calls| && c.max >= 1
    ensures UniqueKeys(Before(c, calls, n)) && |Before(c, calls, n)| <= c.max
    decreases n
  {
    if n > 0 {
      StaysBounded(c, calls, n - 1);
      AllowedFits(Before(c, calls, n - 1), calls[n - 1].key, c.limit, calls[n - 1].now, c.window, c.max);
    }
  }

  lemma InOrder(calls: seq<Call>, i: nat, j: nat)
    requires Monotone(calls) && i <= j < |calls|
    ensures calls[i].now <= calls[j].now
  {
  }

  lemma DroppedNever(c: Config, calls: seq<Call>, i: nat, j: nat, k: string)
    requires i < j <= |calls| && NeverDropped(c, calls, i, j, k)
    ensures NeverDropped(c, calls, i, j - 1, k) && !Drops(c, Before(c, calls, j - 1), calls[j - 1], k)
  {
    hide Before, Drops;
  }

  lemma BeforeIs(c: Config, calls: seq<Call>, j: nat)
    requires 0 < j <= |calls|
    ensures Before(c, calls, j) == After(c, Before(c, calls, j - 1), calls[j - 1])
  {
  }

  /** The admitted times grow by one call's. */
  lemma RecentAdmitted(c: Config, calls: seq<Call>, i: nat, j: nat, k: string, later: real)
    requires i < j <= |calls|
    ensures Recent(AdmittedTimes(c, calls, i, j, k), later, c.window)
            == Recent(AdmittedTimes(c, calls, i, j - 1, k), later, c.window)
               + (if calls[j - 1].key == k && Admitted(c, calls, j - 1) then Recent([calls[j - 1].now], later, c.window)
                  else [])
  {
    hide Recent, Admitted;
    var ts := AdmittedTimes(c, calls, i, j - 1, k);
    RecentConcat(ts, [calls[j - 1].now], later, c.window);
    assert ts + [] == ts;
  }

  lemma HitsStep(c: Config, calls: seq<Call>, i: nat, j: nat, k: string, later: real)
    requires i < j <= |calls| && c.max >= 1 && calls[j - 1].now <= later && NeverDropped(c, calls, i, j, k)
    requires Recent(HitsOf(Before(c, calls, j - 1), k), later, c.window)
             == Recent(HitsOf(Before(c, calls, i), k), later, c.window)
                + Recent(AdmittedTimes(c, calls, i, j - 1, k), later, c.window)
    ensures Recent(HitsOf(Before(c, calls, j), k), later, c.window)
            == Recent(HitsOf(Before(c, calls, i), k), later, c.window)
               + Recent(AdmittedTimes(c, calls, i, j, k), later, c.window)
  {
    hide NeverDropped, Before, After, Drops, HitsOf, Recent, Admits, AdmittedTimes;
    StaysBounded(c, calls, j - 1);
    DroppedNever(c, calls, i, j, k);
    BeforeIs(c, calls, j);
    OneCall(c, Before(c, calls, j - 1), calls[j - 1], k, later);
    RecentAdmitted(c, calls, i, j, k, later);
  }

  lemma NoTimes(c: Config, calls: seq<Call>, i: nat, k: string)
    requires i <= |calls|
    ensures AdmittedTimes(c, calls, i, i, k) == []
  {
  }

  /** A key's recent hits are those it had before and its admitted calls since. */
  lemma {:induction false} HitsAreAdmitted(c: Config, calls: seq<Call>, i: nat, j: nat, k: string, later: real)
    requires i <= j <= |calls| && c.max >= 1 && Monotone(calls) && NeverDropped(c, calls, i, j, k)
    requires j > 0 ==> calls[j - 1].now <= later
    ensures Recent(HitsOf(Before(c, calls, j), k), later, c.window)
            == Recent(HitsOf(Before(c, calls, i), k), later, c.window)
               + Recent(AdmittedTimes(c, calls, i, j, k), later, c.window)
    decreases j
  {
    hide Monotone, NeverDropped, Before, HitsOf, AdmittedTimes;
    NoTimes(c, calls, i, k);
    if i < j {
      if j > 1 { InOrder(calls, j - 2, j - 1); }
      DroppedNever(c, calls, i, j, k);
      HitsAreAdmitted(c, calls, i, j - 1, k, later);
      HitsStep(c, calls, i, j, k, later);
    }
  }

  lemma TimesStep(c: Config, calls: seq<Call>, i: nat, j: nat, k: string)
    requires i < j <= |calls|
    ensures var older, ts := AdmittedTimes(c, calls, i, j - 1, k), AdmittedTimes(c, calls, i, j, k);
            ts == older || ts == older + [calls[j - 1].now]
  {
    hide Admitted;
  }

  lemma TimesAre(c: Config, calls: seq<Call>, i: nat, j: nat, k: string)
    requires i <= j < |calls|
    ensures AdmittedTimes(c, calls, i, j + 1, k)
            == AdmittedTimes(c, calls, i, j, k)
               + (if calls[j].key == k && Admitted(c, calls, j) then [calls[j].now] else [])
  {
    hide Admitted;
  }

  lemma {:induction false} TimesInside(c: Config, calls: seq<Call>, i: nat, j: nat, k: string, now: real)
    requires i <= j <= |calls| && Monotone(calls)
    requires i < j ==> now - calls[i].now < c.window
    ensures Within(AdmittedTimes(c, calls, i, j, k), now, c.window)
    decreases j
  {
    hide Monotone, AdmittedTimes;
    NoTimes(c, calls, i, k);
    if i < j {
      TimesInside(c, calls, i, j - 1, k, now);
      TimesStep(c, calls, i, j, k);
      InOrder(calls, i, j - 1);
      WithinStep(AdmittedTimes(c, calls, i, j - 1, k), calls[j - 1].now, now, c.window);
    }
  }

  /** Any stretch of calls shorter than one window holds at most `limit` admitted calls of a key
      that was not evicted in it. */
  lemma {:induction false} WindowHoldsLimit(c: Config, calls: seq<Call>, i: nat, j: nat, k: string)
    requires i <= j < |calls| && c.max >= 1 && Monotone(calls) && NeverDropped(c, calls, i, j, k)
    requires calls[j].now - calls[i].now < c.window
    ensures |AdmittedTimes(c, calls, i, j + 1, k)| <= if c.limit < 0 then 0 else c.limit
    decreases j
  {
    hide Monotone, NeverDropped, Before, Recent, HitsOf, Within, AdmittedTimes;
    NoTimes(c, calls, i, k);
    TimesAre(c, calls, i, j, k);
    if calls[j].key == k && Admitted(c, calls, j) {
      var now := calls[j].now;
      if j > 0 { InOrder(calls, j - 1, j); }
      HitsAreAdmitted(c, calls, i, j, k, now);
      TimesInside(c, calls, i, j, k, now);
      AllRecent(AdmittedTimes(c, calls, i, j, k), now, c.window);
    } else if i < j {
      InOrder(calls, j - 1, j);
      DroppedNever(c, calls, i, j, k);
      WindowHoldsLimit(c, calls, i, j - 1, k);
    }
  }

  /** For a key that was never evicted, a call is admitted exactly when the window before it holds
      fewer than `limit` admitted calls. */
  lemma AdmittedExactlyBelowLimit(c: Config, calls: seq<Call>, n: nat)
    requires n < |calls| && c.max >= 1 && Monotone(calls) && NeverDropped(c, calls, 0, n, calls[n].key)
    ensures Admitted(c, calls, n)
            <==> c.limit >= 1 && |Recent(AdmittedTimes(c, calls, 0, n, calls[n].key), calls[n].now, c.window)| < c.limit
  {
    HitsAreAdmitted(c, calls, 0, n, calls[n].key, calls[n].now);
  }
}
