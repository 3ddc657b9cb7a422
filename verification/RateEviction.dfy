/** The rate limiter's counts and evictions in terms of its calls (live402/server.py): how many admitted
    calls a window holds, and exactly when a key that is still live is dropped, and which. */
module RateEviction {
  import opened Collections
  import opened RateLimit
  import opened RateWindow

  // ---- counting -----------------------------------------------------------------------------

  /** How many of the first n calls were admitted for the key less than a window before `now`. */
  function AdmittedWithin(c: Config, calls: seq<Call>, n: nat, key: string, now: real): nat
    requires n <= |calls|
  {
    if n == 0 then 0
    else
      AdmittedWithin(c, calls, n - 1, key, now)
      + if calls[n - 1].key == key && Admitted(c, calls, n - 1) && now - calls[n - 1].now < c.window then 1 else 0
  }

  lemma {:induction false} CountIsRecent(c: Config, calls: seq<Call>, n: nat, key: string, now: real)
    requires n <= |calls|
    ensures AdmittedWithin(c, calls, n, key, now) == |Recent(AdmittedTimes(c, calls, 0, n, key), now, c.window)|
  {
    hide Admitted;
    if n > 0 {
      CountIsRecent(c, calls, n - 1, key, now);
      RecentStep(AdmittedTimes(c, calls, 0, n - 1, key), calls[n - 1].now, now, c.window);
      hide Recent;
      TimesAre(c, calls, 0, n - 1, key);
      assert AdmittedTimes(c, calls, 0, n - 1, key) + [] == AdmittedTimes(c, calls, 0, n - 1, key);
    }
  }

  /** For a key that was never evicted a call is admitted exactly if the limit is positive and fewer calls of the key
      than the limit were admitted less than a window ago. */
  lemma AdmittedIff(c: Config, calls: seq<Call>, n: nat)
    requires n < |calls| && c.max >= 1 && Monotone(calls) && NeverDropped(c, calls, 0, n, calls[n].key)
    ensures Admitted(c, calls, n) <==>
              c.limit >= 1 && AdmittedWithin(c, calls, n, calls[n].key, calls[n].now) < c.limit
  {
    hide Admitted, Monotone, NeverDropped, AdmittedWithin, Recent, AdmittedTimes;
    AdmittedExactlyBelowLimit(c, calls, n);
    CountIsRecent(c, calls, n, calls[n].key, calls[n].now);
  }

  // ---- live keys ----------------------------------------------------------------------------

  /** A time less than a window old. */
  predicate Fresh(ts: seq<real>, now: real, window: real) {
    exists i :: 0 <= i < |ts| && now - ts[i] < window
  }

  lemma {:induction false} FreshIff(ts: seq<real>, now: real, window: real)
    ensures Recent(ts, now, window) != [] <==> Fresh(ts, now, window)
    decreases |ts|
  {
    if ts != [] {
      var n := |ts| - 1;
      FreshIff(ts[..n], now, window);
      if Fresh(ts[..n], now, window) {
        var i :| 0 <= i < n && now - ts[..n][i] < window;
        assert ts[i] == ts[..n][i];
      }
      if i :| 0 <= i < |ts| && now - ts[i] < window { assert i < n ==> ts[..n][i] == ts[i]; }
    }
  }

  predicate AllLive(d: Hits, now: real, window: real) {
    forall i :: 0 <= i < |d| ==> Recent(d[i].value, now, window) != []
  }

  /** Every key keeps only its recent hits. */
  function Shortened(d: Hits, now: real, window: real): (r: Hits)
    ensures |r| == |d|
  {
    seq(|d|, i requires 0 <= i < |d| => Item(d[i].key, Recent(d[i].value, now, window)))
  }

  lemma {:induction false} DelAbsent(d: Hits, key: string)
    requires !Has(d, key)
    ensures Del(d, key) == d
    decreases |d|
  {
    if d != [] {
      HasTail(d, key);
      DelAbsent(d[1..], key);
      assert d == [d[0]] + d[1..];
    }
  }

  lemma DelFirst(x: Item<string, seq<real>>, rest: Hits)
    requires !Has(rest, x.key)
    ensures Del([x] + rest, x.key) == rest && HitsOf([x] + rest, x.key) == x.value
  {
    DelAbsent(rest, x.key);
    assert ([x] + rest)[1..] == rest;
  }

  /** Pruning the first key of the map moves it to the end, or drops it when it is stale. */
  lemma PruneFirst(x: Item<string, seq<real>>, rest: Hits, now: real, window: real)
    requires !Has(rest, x.key)
    ensures var kept := Recent(x.value, now, window);
            PruneKey([x] + rest, x.key, now, window) == if kept == [] then rest else rest + [Item(x.key, kept)]
  {
    hide Recent, Del, HitsOf;
    DelFirst(x, rest);
  }

  lemma FirstIsAlone(d: Hits, rest: Hits)
    requires d != [] && rest == d[1..] && UniqueKeys(d)
    ensures !Has(rest, d[0].key) && UniqueKeys(rest)
  {
  }

  lemma Rotated(x: Item<string, seq<real>>, rest: Hits, y: Item<string, seq<real>>)
    requires UniqueKeys([x] + rest) && y.key == x.key
    ensures UniqueKeys(rest + [y])
  {
    var d := [x] + rest;
    forall i | 0 <= i < |rest| ensures rest[i].key != x.key { assert d[0].key != d[i + 1].key; }
    forall i, j | 0 <= i < j < |rest| ensures rest[i].key != rest[j].key { assert d[i + 1].key != d[j + 1].key; }
  }

  lemma KeysFirst(x: Item<string, seq<real>>, rest: Hits)
    ensures KeysOf([x] + rest) == [x.key] + KeysOf(rest)
  {
  }

  lemma ShortenedFirst(x: Item<string, seq<real>>, rest: Hits, now: real, window: real)
    ensures Shortened([x] + rest, now, window)
            == [Item(x.key, Recent(x.value, now, window))] + Shortened(rest, now, window)
  {
    hide Recent;
  }

  lemma PassTurn(d: Hits, key: string, keys: seq<string>, now: real, window: real, max: nat)
    requires |PruneKey(d, key, now, window)| >= max
    ensures PrunePass(d, [key] + keys, now, window, max)
            == PrunePass(PruneKey(d, key, now, window), keys, now, window, max)
  {
    hide PruneKey;
    assert ([key] + keys)[1..] == keys;
  }

  lemma NoKeysNoPass(d: Hits, now: real, window: real, max: nat)
    ensures PrunePass(d, KeysOf([]), now, window, max) == d && Shortened([], now, window) == []
  {
  }

  /** While every key is live a pass over a full map comes round to the same order. */
  lemma {:induction false} PassComesRound(todo: Hits, done: Hits, now: real, window: real, max: nat)
    requires UniqueKeys(todo + done) && |todo + done| >= max && AllLive(todo, now, window)
    ensures PrunePass(todo + done, KeysOf(todo), now, window, max) == done + Shortened(todo, now, window)
    decreases |todo|
  {
    hide Recent, PruneKey, PrunePass, KeysOf, Shortened, UniqueKeys;
    if todo == [] {
      assert todo + done == done && done + [] == done;
      NoKeysNoPass(done, now, window, max);
    } else {
      var x, rest := todo[0], todo[1..];
      var y := Item(x.key, Recent(x.value, now, window));
      var d := todo + done;
      assert todo == [x] + rest && d == [x] + (rest + done) && d[1..] == rest + done;
      FirstIsAlone(d, rest + done);
      PruneFirst(x, rest + done, now, window);
      Rotated(x, rest + done, y);
      assert rest + done + [y] == rest + (done + [y]);
      LaterAreLive(todo, now, window);
      PassComesRound(rest, done + [y], now, window, max);
      KeysFirst(x, rest);
      PassTurn(d, x.key, KeysOf(rest), now, window, max);
      ShortenedFirst(x, rest, now, window);
      assert done + [y] + Shortened(rest, now, window) == done + ([y] + Shortened(rest, now, window));
    }
  }

  lemma LaterAreLive(todo: Hits, now: real, window: real)
    requires todo != [] && AllLive(todo, now, window)
    ensures AllLive(todo[1..], now, window) && Recent(todo[0].value, now, window) != []
  {
    hide Recent;
  }

  /** A stale key among them makes room. */
  lemma {:induction false} StaleMakesRoom(todo: Hits, done: Hits, now: real, window: real, max: nat)
    requires UniqueKeys(todo + done) && |todo + done| <= max && max >= 1 && !AllLive(todo, now, window)
    ensures |PrunePass(todo + done, KeysOf(todo), now, window, max)| < max
    decreases |todo|
  {
    hide Recent, PruneKey, AllLive, UniqueKeys;
    SomethingIsStale(todo, now, window);
    var x, rest := todo[0], todo[1..];
    var kept := Recent(x.value, now, window);
    var y := Item(x.key, kept);
    var d := todo + done;
    assert d == [x] + (rest + done) && d[1..] == rest + done;
    FirstIsAlone(d, rest + done);
    PruneFirst(x, rest + done, now, window);
    if kept != [] {
      Rotated(x, rest + done, y);
      assert rest + done + [y] == rest + (done + [y]);
      StaleIsLater(todo, now, window);
      StaleMakesRoom(rest, done + [y], now, window, max);
      assert KeysOf(todo)[1..] == KeysOf(rest);
    }
  }

  lemma StaleIsLater(todo: Hits, now: real, window: real)
    requires todo != [] && !AllLive(todo, now, window) && Recent(todo[0].value, now, window) != []
    ensures !AllLive(todo[1..], now, window)
  {
    hide Recent;
    var i :| 0 <= i < |todo| && Recent(todo[i].value, now, window) == [];
    assert todo[1..][i - 1] == todo[i];
  }

  lemma SomethingIsStale(todo: Hits, now: real, window: real)
    ensures !AllLive(todo, now, window) ==> todo != []
  {
  }

  // ---- evictions ----------------------------------------------------------------------------

  /** What is stored is never empty. */
  predicate Filled(d: Hits) {
    forall i :: 0 <= i < |d| ==> d[i].value != []
  }

  lemma {:induction false} HitsAt(d: Hits, i: nat)
    requires UniqueKeys(d) && i < |d|
    ensures HitsOf(d, d[i].key) == d[i].value
    decreases |d|
  {
    if i > 0 {
      assert d[0].key != d[i].key && d[1..][i - 1] == d[i];
      HitsAt(d[1..], i - 1);
    }
  }

  lemma NoHits(d: Hits, key: string)
    ensures HitsOf(d, key) != [] ==> Has(d, key)
  {
  }

  /** A live key is dropped exactly when a call for a key that is not in the map finds it full and every key live, and
      then it is the first one of the map. */
  lemma DropsIff(c: Config, d: Hits, call: Call, key: string)
    requires UniqueKeys(d) && |d| <= c.max && c.max >= 1
    ensures Drops(c, d, call, key) <==>
              && c.limit >= 1 && |d| == c.max && !Has(d, call.key)
              && (forall i :: 0 <= i < |d| ==> Fresh(d[i].value, call.now, c.window))
              && key == d[0].key
  {
    hide Recent, PrunePass, HitsOf, Fresh, PopOldest, PruneKey, UniqueKeys;
    if c.limit >= 1 {
      forall i | 0 <= i < |d| ensures Recent(d[i].value, call.now, c.window) != [] <==>
                                      Fresh(d[i].value, call.now, c.window) {
        FreshIff(d[i].value, call.now, c.window);
      }
      assert AllLive(d, call.now, c.window) <==> forall i :: 0 <= i < |d| ==> Fresh(d[i].value, call.now, c.window);
      if |d| == c.max && !Has(d, call.key) {
        OwnIsAbsent(d, call.key, call.now, c.window);
        FullMap(c, d, call, key);
      } else {
        RoomForOwn(d, call.key, call.now, c.window, c.max);
      }
    }
  }

  lemma OwnIsAbsent(d: Hits, key: string, now: real, window: real)
    requires !Has(d, key)
    ensures PruneKey(d, key, now, window) == d
  {
    DelAbsent(d, key);
    assert Recent([], now, window) == [];
  }

  /** A call for a key of the map, or into a map with room, prunes its own key only. */
  lemma RoomForOwn(d: Hits, key: string, now: real, window: real, max: nat)
    requires UniqueKeys(d) && |d| <= max && !(|d| == max && !Has(d, key))
    ensures var own := PruneKey(d, key, now, window); !(|own| >= max && !Has(own, key))
  {
    hide Recent, HitsOf;
    PruneFacts(d, key, now, window);
    var kept := Recent(HitsOf(d, key), now, window);
    DelFacts(d, key);
    StoreFacts(d, key, kept);
  }

  lemma FullMap(c: Config, d: Hits, call: Call, key: string)
    requires UniqueKeys(d) && |d| == c.max >= 1 && c.limit >= 1 && !Has(d, call.key)
    requires PruneKey(d, call.key, call.now, c.window) == d
    ensures Drops(c, d, call, key) <==> AllLive(d, call.now, c.window) && key == d[0].key
  {
    hide Recent, PruneKey, HitsOf, PrunePass, PopOldest, UniqueKeys, Has;
    assert d + [] == d;
    var pruned := PrunePass(d, KeysOf(d), call.now, c.window, c.max);
    if AllLive(d, call.now, c.window) {
      PassComesRound(d, [], call.now, c.window, c.max);
      var short := Shortened(d, call.now, c.window);
      assert [] + short == short && pruned == short;
      ShortIsUnique(d, call.now, c.window);
      PopFirst(short, c.max, key);
    } else {
      StaleMakesRoom(d, [], call.now, c.window, c.max);
      NothingToPop(pruned, c.max);
    }
  }

  lemma ShortIsUnique(d: Hits, now: real, window: real)
    requires UniqueKeys(d)
    ensures UniqueKeys(Shortened(d, now, window))
    ensures AllLive(d, now, window) ==> Filled(Shortened(d, now, window))
    ensures d != [] ==> Shortened(d, now, window)[0].key == d[0].key
  {
    hide Recent;
  }

  lemma NothingToPop(d: Hits, max: nat)
    ensures |d| < max ==> PopOldest(d, max) == d
  {
  }

  /** From a full map without empty lists exactly the first key is popped. */
  lemma PopFirst(d: Hits, max: nat, key: string)
    requires UniqueKeys(d) && |d| == max >= 1 && Filled(d)
    ensures HitsOf(d, key) != [] && HitsOf(PopOldest(d, max), key) == [] <==> key == d[0].key
  {
    var rest := d[1..];
    assert PopOldest(d, max) == rest;
    FirstIsAlone(d, rest);
    HitsAt(d, 0);
    NoHits(rest, key);
    HasTail(d, key);
    assert key != d[0].key ==> HitsOf(d, key) == HitsOf(rest, key);
  }

  // ---- the order of the map -----------------------------------------------------------------

  /** With a positive limit every call, a rejected one too, leaves its key the newest of the map, with its hits less
      than a window old and, when admitted, the call; unless it meets a full map without its key, nothing else moves. */
  lemma CalledIsNewest(d: Hits, key: string, limit: int, now: real, window: real, max: nat)
    requires UniqueKeys(d) && |d| <= max && limit >= 1
    ensures var r := Allowed(d, key, limit, now, window, max);
            var hits := Recent(HitsOf(d, key), now, window)
                        + if Admits(d, key, limit, now, window) then [now] else [];
            && r != [] && r[|r| - 1] == Item(key, hits)
            && (Has(d, key) || |d| < max ==> r == Del(d, key) + [Item(key, hits)])
  {
    hide Recent, HitsOf, Has, Del, UniqueKeys, PrunePass, PopOldest;
    var own := PruneKey(d, key, now, window);
    PruneFacts(d, key, now, window);
    UnknownIsEmpty(d, key, now, window);
    if Has(d, key) || |d| < max {
      RoomForOwn(d, key, now, window, max);
      DelTwice(d, key, Recent(HitsOf(d, key), now, window));
      assert Recent(HitsOf(d, key), now, window) + [] == Recent(HitsOf(d, key), now, window);
    }
  }

  lemma UnknownIsEmpty(d: Hits, key: string, now: real, window: real)
    ensures !Has(d, key) ==> Recent(HitsOf(d, key), now, window) == []
  {
  }

  lemma DelTwice(d: Hits, key: string, hits: seq<real>)
    requires UniqueKeys(d)
    ensures Del(Store(d, key, hits), key) == Del(d, key)
  {
    hide UniqueKeys;
    DelFacts(d, key);
    DelLast(Del(d, key), key, hits);
  }

  lemma {:induction false} DelLast(d: Hits, key: string, hits: seq<real>)
    requires !Has(d, key)
    ensures Del(d, key) == d && Del(d + [Item(key, hits)], key) == d
    decreases |d|
  {
    if d == [] {
      assert d + [Item(key, hits)] == [Item(key, hits)];
    } else {
      HasTail(d, key);
      DelLast(d[1..], key, hits);
      assert (d + [Item(key, hits)])[1..] == d[1..] + [Item(key, hits)];
    }
  }
}
