/** The in-memory rate limiter (live402/server.py): a sliding window per key in a bounded,
    least-recently-used map. */
module RateLimit {
  import opened Collections

  type Hits = Odict<string, seq<real>>

  /** Times less than one window old. */
  function Recent(ts: seq<real>, now: real, window: real): (r: seq<real>)
    ensures |r| <= |ts|
    decreases |ts|
  {
    if ts == [] then []
    else
      var n := |ts| - 1;
      Recent(ts[..n], now, window) + if now - ts[n] < window then [ts[n]] else []
  }

  function HitsOf(d: Hits, key: string): seq<real> {
    var h := Get(d, key);
    if h.Some? then h.value else []
  }

  /** Store a non-empty list as the newest entry; an empty one removes the key. */
  function Store(d: Hits, key: string, hits: seq<real>): Hits {
    if hits == [] then Del(d, key) else Del(d, key) + [Item(key, hits)]
  }

  function PruneKey(d: Hits, key: string, now: real, window: real): Hits {
    Store(d, key, Recent(HitsOf(d, key), now, window))
  }

  /** Prune the keys one after the other, until there is room. */
  function PrunePass(d: Hits, keys: seq<string>, now: real, window: real, max: nat): Hits
    decreases |keys|
  {
    if keys == [] then d
    else
      var pruned := PruneKey(d, keys[0], now, window);
      if |pruned| < max then pruned else PrunePass(pruned, keys[1..], now, window, max)
  }

  function KeysOf(d: Hits): (r: seq<string>)
    ensures |r| == |d|
  {
    seq(|d|, i requires 0 <= i < |d| => d[i].key)
  }

  /** Drop the least recently used keys until there is room. */
  function PopOldest(d: Hits, max: nat): Hits
    decreases |d|
  {
    if d == [] || |d| < max then d else PopOldest(d[1..], max)
  }

  /** The map when a call has pruned what it prunes, before keys that are still live are dropped. */
  function Pruned(d: Hits, key: string, now: real, window: real, max: nat): Hits {
    var own := PruneKey(d, key, now, window);
    if |own| >= max && !Has(own, key) then PrunePass(own, KeysOf(own), now, window, max) else own
  }

  /** ... and after they are dropped. */
  function Evicted(d: Hits, key: string, now: real, window: real, max: nat): Hits {
    var own := PruneKey(d, key, now, window);
    var pruned := Pruned(d, key, now, window, max);
    if |own| >= max && !Has(own, key) then PopOldest(pruned, max) else pruned
  }

  predicate Admits(d: Hits, key: string, limit: int, now: real, window: real) {
    limit >= 1 && |Recent(HitsOf(d, key), now, window)| < limit
  }

  /** The map after one call of allow. */
  function Allowed(d: Hits, key: string, limit: int, now: real, window: real, max: nat): Hits {
    if limit < 1 then d
    else
      var room := Evicted(d, key, now, window, max);
      if Admits(d, key, limit, now, window)
      then Store(room, key, Recent(HitsOf(d, key), now, window) + [now])
      else room
  }

  class RateLimiter {
    var hits: Hits
    const maxKeys: nat

    constructor (max: int)
      ensures hits == [] && maxKeys == (if max < 1 then 1 else max)
    {
      hits := [];
      maxKeys := if max < 1 then 1 else max;
    }

    method PruneOne(key: string, now: real, window: real) returns (kept: seq<real>)
      modifies this`hits
      ensures hits == PruneKey(old(hits), key, now, window)
      ensures kept == Recent(HitsOf(old(hits), key), now, window)
    {
      var ts := HitsOf(hits, key);
      kept := [];
      for i := 0 to |ts|
        invariant kept == Recent(ts[..i], now, window)
      {
        assert ts[..i + 1][..i] == ts[..i];
        if now - ts[i] < window { kept := kept + [ts[i]]; }
      }
      assert ts[..|ts|] == ts;
      hits := if kept != [] then Del(hits, key) + [Item(key, kept)] else Del(hits, key);
    }

    method Evict(now: real, window: real)
      modifies this`hits
      ensures hits == PopOldest(PrunePass(old(hits), KeysOf(old(hits)), now, window, maxKeys), maxKeys)
    {
      var keys := KeysOf(hits);
      var i := 0;
      ghost var all := PrunePass(hits, keys, now, window, maxKeys);
      assert keys[0..] == keys;
      while i < |keys|
        invariant 0 <= i <= |keys|
        invariant PrunePass(hits, keys[i..], now, window, maxKeys) == all
      {
        assert keys[i..][1..] == keys[i + 1..];
        var _ := PruneOne(keys[i], now, window);
        if |hits| < maxKeys { return; }
        i := i + 1;
      }
      ghost var pruned := hits;
      while hits != [] && |hits| >= maxKeys
        invariant PopOldest(hits, maxKeys) == PopOldest(pruned, maxKeys)
        decreases |hits|
      {
        hits := hits[1..];
      }
    }

    /** The last eviction of the source cannot be reached: an admitted call fits. */
    method Allow(key: string, limit: int, window: real, now: real) returns (ok: bool)
      requires maxKeys >= 1 && |hits| <= maxKeys && UniqueKeys(hits)
      modifies this`hits
      ensures ok <==> Admits(old(hits), key, limit, now, window)
      ensures hits == Allowed(old(hits), key, limit, now, window, maxKeys)
      ensures |hits| <= maxKeys && UniqueKeys(hits)
    {
      AllowedFits(hits, key, limit, now, window, maxKeys);
      if limit < 1 { return false; }
      var mine := PruneOne(key, now, window);
      if |hits| >= maxKeys && !Has(hits, key) { Evict(now, window); }
      if |mine| >= limit { return false; }
      mine := mine + [now];
      hits := Del(hits, key) + [Item(key, mine)];
      return true;
    }
  }

  // ---- the map stays bounded ----------------------------------------------------------------

  lemma StoreFacts(d: Hits, key: string, hits: seq<real>)
    requires UniqueKeys(d)
    ensures UniqueKeys(Store(d, key, hits)) && HitsOf(Store(d, key, hits), key) == hits
    ensures |Store(d, key, hits)| == |Del(d, key)| + (if hits == [] then 0 else 1)
    ensures Has(Store(d, key, hits), key) <==> hits != []
    ensures forall j :: j != key ==> HitsOf(Store(d, key, hits), j) == HitsOf(d, j)
  {
    hide Del, Get, Has, UniqueKeys;
    DelFacts(d, key);
    AppendFacts(Del(d, key), key, hits);
  }

  lemma PruneFacts(d: Hits, key: string, now: real, window: real)
    requires UniqueKeys(d)
    ensures var r := PruneKey(d, key, now, window);
            UniqueKeys(r) && |r| <= |d| && HitsOf(r, key) == Recent(HitsOf(d, key), now, window)
            && (Has(r, key) <==> Recent(HitsOf(d, key), now, window) != [])
    ensures forall j :: j != key ==> HitsOf(PruneKey(d, key, now, window), j) == HitsOf(d, j)
  {
    StoreFacts(d, key, Recent(HitsOf(d, key), now, window));
    DelFacts(d, key);
  }

  lemma {:induction false} PrunePassFits(d: Hits, keys: seq<string>, now: real, window: real, max: nat)
    requires UniqueKeys(d)
    ensures UniqueKeys(PrunePass(d, keys, now, window, max)) && |PrunePass(d, keys, now, window, max)| <= |d|
    decreases |keys|
  {
    if keys != [] {
      PruneFacts(d, keys[0], now, window);
      PrunePassFits(PruneKey(d, keys[0], now, window), keys[1..], now, window, max);
    }
  }

  lemma {:induction false} PopFits(d: Hits, max: nat)
    requires UniqueKeys(d) && max >= 1
    ensures UniqueKeys(PopOldest(d, max)) && |PopOldest(d, max)| <= |d| && |PopOldest(d, max)| < max
    decreases |d|
  {
    if d != [] && |d| >= max { PopFits(d[1..], max); }
  }

  /** The map never exceeds max_keys. */
  lemma AllowedFits(d: Hits, key: string, limit: int, now: real, window: real, max: nat)
    requires UniqueKeys(d) && |d| <= max && max >= 1
    ensures var r := Allowed(d, key, limit, now, window, max); UniqueKeys(r) && |r| <= max
  {
    if limit >= 1 {
      var own := PruneKey(d, key, now, window);
      var room := Evicted(d, key, now, window, max);
      PruneFacts(d, key, now, window);
      PrunePassFits(own, KeysOf(own), now, window, max);
      PopFits(PrunePass(own, KeysOf(own), now, window, max), max);
      assert UniqueKeys(room) && |room| <= max && (Has(own, key) || |room| < max);
      DelFacts(room, key);
      StoreFacts(room, key, Recent(HitsOf(d, key), now, window) + [now]);
    }
  }
}
