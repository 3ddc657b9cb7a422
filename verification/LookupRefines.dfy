/** The lookup that shares semaphore objects between the cache and the threads is the lookup of the cache that owns
    them: same entries in the same order, same values, same evictions. */
module LookupRefines {
  import opened Collections
  import opened Slots
  import opened SlotLookups

  type Cache = Odict<string, nat>

  /** Every cached semaphore exists. */
  predicate Known(cache: Cache, values: seq<nat>) {
    forall i :: 0 <= i < |cache| ==> cache[i].value < |values|
  }

  function OwnedAt(x: Item<string, nat>, values: seq<nat>): Item<string, Sem>
    requires x.value < |values|
  {
    Item(x.key, Sem(x.value, values[x.value]))
  }

  /** The cache with its semaphores in place. */
  function Owned(cache: Cache, values: seq<nat>): (r: Hosts)
    requires Known(cache, values)
    ensures |r| == |cache| && forall i :: 0 <= i < |r| ==> r[i] == OwnedAt(cache[i], values)
  {
    seq(|cache|, i requires 0 <= i < |cache| => OwnedAt(cache[i], values))
  }

  lemma OwnedTail(cache: Cache, values: seq<nat>)
    requires Known(cache, values) && cache != []
    ensures Known(cache[1..], values) && Owned(cache, values)[1..] == Owned(cache[1..], values)
    ensures Owned(cache, values) == [OwnedAt(cache[0], values)] + Owned(cache[1..], values)
  {
  }

  lemma {:induction false} SameFirst(cache: Cache, values: seq<nat>)
    requires Known(cache, values)
    ensures FirstIdle(cache, values) == FirstReleased(Owned(cache, values))
    decreases |cache|
  {
    if cache != [] {
      OwnedTail(cache, values);
      SameFirst(cache[1..], values);
    }
  }

  lemma {:induction false} SameEvictions(cache: Cache, values: seq<nat>)
    requires Known(cache, values)
    ensures var room := SlotLookups.Evicted(cache, values);
            Known(room, values) && Owned(room, values) == MakeRoom(Owned(cache, values))
    decreases |cache|
  {
    hide FirstIdle, FirstReleased;
    SameFirst(cache, values);
    var i := FirstIdle(cache, values);
    if |cache| >= MAX_HOST_SLOT_KEYS && i != |cache| {
      var rest := cache[..i] + cache[i + 1..];
      assert Known(rest, values) && Owned(rest, values) == Without(Owned(cache, values), i);
      SameEvictions(rest, values);
    }
  }

  lemma {:induction false} SameEntry(cache: Cache, values: seq<nat>, host: string)
    requires Known(cache, values)
    ensures Get(cache, host).Some? <==> Get(Owned(cache, values), host).Some?
    ensures Get(cache, host).Some? ==>
              Get(cache, host).value < |values|
              && Get(Owned(cache, values), host).value == Sem(Get(cache, host).value, values[Get(cache, host).value])
    decreases |cache|
  {
    hide Del, Has;
    if cache != [] {
      OwnedTail(cache, values);
      SameEntry(cache[1..], values, host);
    }
  }

  lemma {:induction false} SameRest(cache: Cache, values: seq<nat>, host: string)
    requires Known(cache, values)
    ensures Known(Del(cache, host), values) && Owned(Del(cache, host), values) == Del(Owned(cache, values), host)
    decreases |cache|
  {
    hide Get, Has;
    if cache != [] {
      OwnedTail(cache, values);
      SameRest(cache[1..], values, host);
      DelStep(cache[0], cache[1..], host);
      DelStep(OwnedAt(cache[0], values), Owned(cache[1..], values), host);
      assert cache == [cache[0]] + cache[1..];
      hide Del;
      var rest := Del(cache[1..], host);
      if cache[0].key != host { OwnedTail([cache[0]] + rest, values); }
    }
  }

  lemma DelStep<V>(x: Item<string, V>, rest: Odict<string, V>, host: string)
    ensures Del([x] + rest, host) == (if x.key == host then [] else [x]) + Del(rest, host)
  {
    hide Has;
    assert ([x] + rest)[1..] == rest;
  }

  /** What a lookup brings back, in terms of the cache that owns its semaphores: the host's own one, which is then the
      last, or the shared one exactly when the host overflows. */
  lemma LookupIsTouch(w: World, host: string)
    requires host != "" && Known(w.cache, w.values)
    ensures var (v, ref) := Lookup(w, host);
            var hosts := Owned(w.cache, w.values);
            && Known(v.cache, v.values)
            && Owned(v.cache, v.values) == Touch(hosts, host, |w.values|)
            && (ref == (if Overflows(hosts, host) then Ref.Overflow
                        else Own(Last(Touch(hosts, host, |w.values|)).id)))
            && v.global == w.global && v.overflow == w.overflow && v.threads == w.threads
            && |w.values| <= |v.values| && v.values[..|w.values|] == w.values
  {
    hide Get, Del, MakeRoom, SlotLookups.Evicted;
    SameEntry(w.cache, w.values, host);
    SameRest(w.cache, w.values, host);
    SameEvictions(w.cache, w.values);
    var known := Get(w.cache, host);
    var room := SlotLookups.Evicted(w.cache, w.values);
    if known.Some? {
      var d := Del(w.cache, host);
      assert Owned(d + [Item(host, known.value)], w.values)
             == Owned(d, w.values) + [OwnedAt(Item(host, known.value), w.values)];
    } else {
      var values := w.values + [MAX_PER_HOST];
      assert Known(room + [Item(host, |w.values|)], values);
      assert Owned(room + [Item(host, |w.values|)], values)
             == Owned(room, w.values) + [Item(host, Sem(|w.values|, MAX_PER_HOST))];
    }
  }

  /** Probes without a host look nothing up. */
  lemma NoHostNoLookup(w: World)
    ensures Lookup(w, "") == (w, NoSemaphore)
  {
  }

  /** Taking a looked-up semaphore of a cached host and giving it back are those of the cache that owns it, at
      whatever place the host stands by then. */
  lemma TakeAndGive(w: World, i: nat)
    requires Known(w.cache, w.values) && i < |w.cache|
    requires forall j :: 0 <= j < |w.cache| && j != i ==> w.cache[j].value != w.cache[i].value
    ensures var ref, hosts := Own(w.cache[i].value), Owned(w.cache, w.values);
            && (CanTake(w, ref) <==> hosts[i].value.value > 0)
            && (CanTake(w, ref) ==>
                  Take(w, ref).cache == w.cache && Known(w.cache, Take(w, ref).values)
                  && Owned(w.cache, Take(w, ref).values)
                     == hosts[i := Item(hosts[i].key, Sem(hosts[i].value.id, hosts[i].value.value - 1))])
            && Give(w, ref).cache == w.cache && Known(w.cache, Give(w, ref).values)
            && Owned(w.cache, Give(w, ref).values)
               == hosts[i := Item(hosts[i].key, Sem(hosts[i].value.id, hosts[i].value.value + 1))]
  {
  }
}
