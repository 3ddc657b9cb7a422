/** The probe slots with lookup and try-acquire as two steps (live402/probe.py): between the two an
    idle host can be evicted from the cache, and its semaphore lives on in the thread that looked it
    up. How many hosts the bound on probes per host holds for. */
module SlotLookups {
  import opened Collections
  import opened Slots

  /** What a lookup returns: nothing for a probe without a host, a host's semaphore, or the shared one. */
  datatype Ref = NoSemaphore | Own(id: nat) | Overflow

  datatype Phase =
    | Outside
    | Waiting(host: string)
    | Permitted(host: string)
    | Found(host: string, ref: Ref)
    | Refused(host: string)
    | Probing(host: string)
    | Releasing(host: string, ref: Ref)
    | Leaving

  /** The cache maps hosts to semaphores, `values` are the semaphores' values, the evicted ones' too. */
  datatype World = World(
    global: nat, cache: Odict<string, nat>, values: seq<nat>, overflow: nat, threads: map<nat, Phase>)

  const START := World(MAX_PROCESS_PROBES, [], [], 1, map[])

  datatype Act =
    | Ask(t: nat, host: string)
    | GiveUp(t: nat)
    | TakeGlobal(t: nat)
    | Look(t: nat)
    | Try(t: nat)
    | GiveBack(t: nat)
    | LookAgain(t: nat)
    | Free(t: nat)
    | LeaveGlobal(t: nat)

  function PhaseOf(w: World, t: nat): Phase {
    if t in w.threads then w.threads[t] else Outside
  }

  // ---- lookup -------------------------------------------------------------------------------

  /** _host_slot_released */
  predicate Idle(values: seq<nat>, id: nat) {
    id < |values| && values[id] >= MAX_PER_HOST
  }

  /** The least recently used host nobody holds, or |cache|. */
  function FirstIdle(cache: Odict<string, nat>, values: seq<nat>): (i: nat)
    ensures i <= |cache|
  {
    if cache == [] || Idle(values, cache[0].value) then 0 else 1 + FirstIdle(cache[1..], values)
  }

  function Evicted(cache: Odict<string, nat>, values: seq<nat>): Odict<string, nat>
    decreases |cache|
  {
    var i := FirstIdle(cache, values);
    if |cache| < MAX_HOST_SLOT_KEYS || i == |cache| then cache
    else Evicted(cache[..i] + cache[i + 1..], values)
  }

  /** _host_semaphore: the world after it and what it returns. */
  function Lookup(w: World, host: string): (World, Ref) {
    var known := Get(w.cache, host);
    var room := Evicted(w.cache, w.values);
    if host == "" then (w, NoSemaphore)
    else if known.Some? then (w.(cache := Del(w.cache, host) + [Item(host, known.value)]), Own(known.value))
    else if |room| >= MAX_HOST_SLOT_KEYS then (w.(cache := room), Overflow)
    else
      (w.(cache := room + [Item(host, |w.values|)], values := w.values + [MAX_PER_HOST]), Own(|w.values|))
  }

  predicate CanTake(w: World, ref: Ref) {
    match ref
    case NoSemaphore => true
    case Own(id) => id < |w.values| && w.values[id] > 0
    case Overflow => w.overflow > 0
  }

  function Take(w: World, ref: Ref): World
    requires CanTake(w, ref)
  {
    match ref
    case NoSemaphore => w
    case Own(id) => w.(values := w.values[id := w.values[id] - 1])
    case Overflow => w.(overflow := w.overflow - 1)
  }

  function Give(w: World, ref: Ref): World {
    match ref
    case NoSemaphore => w
    case Own(id) => if id < |w.values| then w.(values := w.values[id := w.values[id] + 1]) else w
    case Overflow => w.(overflow := w.overflow + 1)
  }

  // ---- steps --------------------------------------------------------------------------------

  function Move(w: World, t: nat, p: Phase): World {
    w.(threads := w.threads[t := p])
  }

  /** One step; a step that its thread cannot take now changes nothing. */
  function Step(w: World, a: Act): World {
    var p := PhaseOf(w, a.t);
    match a
    case Ask(t, host) => if p.Outside? then Move(w, t, Waiting(host)) else w
    case GiveUp(t) => if p.Waiting? then Move(w, t, Outside) else w
    case TakeGlobal(t) =>
      if p.Waiting? && w.global > 0 then Move(w.(global := w.global - 1), t, Permitted(p.host)) else w
    case Look(t) =>
      if p.Permitted? then var (v, ref) := Lookup(w, p.host); Move(v, t, Found(p.host, ref)) else w
    case Try(t) =>
      if !p.Found? then w
      else if CanTake(w, p.ref) then Move(Take(w, p.ref), t, Probing(p.host))
      else Move(w, t, Refused(p.host))
    case GiveBack(t) => if p.Refused? then Move(w.(global := w.global + 1), t, Waiting(p.host)) else w
    case LookAgain(t) =>
      if p.Probing? then var (v, ref) := Lookup(w, p.host); Move(v, t, Releasing(p.host, ref)) else w
    case Free(t) => if p.Releasing? then Move(Give(w, p.ref), t, Leaving) else w
    case LeaveGlobal(t) => if p.Leaving? then Move(w.(global := w.global + 1), t, Outside) else w
  }

  function Run(w: World, acts: seq<Act>): World
    decreases |acts|
  {
    if acts == [] then w else Step(Run(w, acts[..|acts| - 1]), acts[|acts| - 1])
  }

  predicate HasPermit(p: Phase) {
    !p.Outside? && !p.Waiting?
  }

  function Permits(threads: map<nat, Phase>): set<nat> {
    set t | t in threads && HasPermit(threads[t])
  }

  predicate Holds(p: Phase, host: string) {
    (p.Probing? || p.Releasing?) && p.host == host
  }

  /** The threads with a permit of the host. */
  function Holders(threads: map<nat, Phase>, host: string): set<nat> {
    set t | t in threads && Holds(threads[t], host)
  }

  /** Every probe is for one of these hosts, or for none. */
  ghost predicate Over(hosts: set<string>, acts: seq<Act>) {
    forall i :: 0 <= i < |acts| && acts[i].Ask? ==> acts[i].host == "" || acts[i].host in hosts
  }

  /** At most two permits are out for each host. */
  ghost predicate HostsBounded(w: World) {
    forall host :: host != "" ==> |Holders(w.threads, host)| <= 2
  }

  // ---- few hosts: the invariant ---------------------------------------------------------------

  /** Every cached host has a semaphore of its own that counts its holders. */
  ghost predicate Counted(hosts: set<string>, threads: map<nat, Phase>, cache: Odict<string, nat>, values: seq<nat>) {
    && UniqueKeys(cache)
    && (forall k :: Has(cache, k) ==> k in hosts && k != "")
    && (forall k :: Has(cache, k) ==>
          Get(cache, k).value < |values| && values[Get(cache, k).value] + |Holders(threads, k)| == MAX_PER_HOST)
    && forall k, l :: Has(cache, k) && Has(cache, l) && k != l ==> Get(cache, k) != Get(cache, l)
  }

  /** Who refers to a semaphore refers to the one in the cache. */
  predicate PhaseOk(hosts: set<string>, cache: Odict<string, nat>, p: Phase) {
    match p
    case Outside => true
    case Leaving => true
    case Found(h, ref) => if h == "" then ref == NoSemaphore else Refers(hosts, cache, h, ref)
    case Releasing(h, ref) => if h == "" then ref == NoSemaphore else Refers(hosts, cache, h, ref)
    case Probing(h) => h == "" || (h in hosts && Has(cache, h))
    case _ => p.host == "" || p.host in hosts
  }

  predicate Refers(hosts: set<string>, cache: Odict<string, nat>, h: string, ref: Ref) {
    h in hosts && Get(cache, h).Some? && ref == Own(Get(cache, h).value)
  }

  ghost predicate AllOk(hosts: set<string>, cache: Odict<string, nat>, threads: map<nat, Phase>) {
    forall t :: t in threads ==> PhaseOk(hosts, cache, threads[t])
  }

  // ---- few hosts: a lookup ------------------------------------------------------------------

  function Keys(d: Odict<string, nat>): set<string> {
    set it | it in d :: it.key
  }

  lemma {:induction false} KeysCount(d: Odict<string, nat>)
    requires UniqueKeys(d)
    ensures |Keys(d)| == |d| && forall k :: k in Keys(d) <==> Has(d, k)
  {
    if d == [] {
    } else {
      var rest := d[1..];
      KeysCount(rest);
      assert forall it :: it in d <==> it == d[0] || it in rest;
      assert Keys(d) == {d[0].key} + Keys(rest);
      assert d[0].key !in Keys(rest);
      forall k ensures k in Keys(d) <==> Has(d, k) { HasTail(d, k); }
    }
  }

  lemma {:induction false} SubsetSize(a: set<string>, b: set<string>)
    requires a <= b
    ensures |a| <= |b|
  {
    if a != {} {
      var x :| x in a;
      SubsetSize(a - {x}, b - {x});
    }
  }

  /** With few hosts a host that is not cached finds room. */
  lemma RoomIsLeft(hosts: set<string>, cache: Odict<string, nat>, host: string)
    requires UniqueKeys(cache) && (forall k :: Has(cache, k) ==> k in hosts)
    requires host in hosts && !Has(cache, host) && |hosts| <= MAX_HOST_SLOT_KEYS
    ensures |cache| < MAX_HOST_SLOT_KEYS
  {
    KeysCount(cache);
    SubsetSize(Keys(cache), hosts - {host});
  }

  lemma NobodyHolds(hosts: set<string>, cache: Odict<string, nat>, threads: map<nat, Phase>, host: string)
    requires AllOk(hosts, cache, threads) && host != "" && !Has(cache, host)
    ensures Holders(threads, host) == {}
  {
    forall t | t in threads ensures !Holds(threads[t], host) {
      assert PhaseOk(hosts, cache, threads[t]);
    }
  }

  /** A lookup of a known host only moves it to the end. */
  lemma HitKeeps(hosts: set<string>, w: World, host: string)
    requires Counted(hosts, w.threads, w.cache, w.values) && Get(w.cache, host).Some?
    ensures var cache := Del(w.cache, host) + [Item(host, Get(w.cache, host).value)];
            Counted(hosts, w.threads, cache, w.values) && forall k :: Get(cache, k) == Get(w.cache, k)
  {
    hide Holders, Del, Get;
    DelFacts(w.cache, host);
    AppendFacts(Del(w.cache, host), host, Get(w.cache, host).value);
    var cache := Del(w.cache, host) + [Item(host, Get(w.cache, host).value)];
    forall k ensures Get(cache, k) == Get(w.cache, k) && (Has(cache, k) <==> Has(w.cache, k)) {}
  }

  /** A lookup of a new host adds it with a semaphore that nobody holds. */
  lemma MissKeeps(hosts: set<string>, w: World, host: string)
    requires Counted(hosts, w.threads, w.cache, w.values) && host in hosts && host != "" && !Has(w.cache, host)
    requires Holders(w.threads, host) == {}
    ensures var cache := w.cache + [Item(host, |w.values|)];
            && Counted(hosts, w.threads, cache, w.values + [MAX_PER_HOST]) && Get(cache, host) == Some(|w.values|)
            && forall k :: k != host ==> Get(cache, k) == Get(w.cache, k)
  {
    hide Holders, Get;
    AppendFacts(w.cache, host, |w.values|);
    var cache := w.cache + [Item(host, |w.values|)];
    forall k ensures k != host ==> (Has(cache, k) <==> Has(w.cache, k)) {
      assert k != host ==> Get(cache, k) == Get(w.cache, k);
    }
  }

  /** A cache that gives every known host the same semaphore suits the same phases. */
  lemma SamePhases(hosts: set<string>, a: Odict<string, nat>, b: Odict<string, nat>, threads: map<nat, Phase>)
    requires AllOk(hosts, a, threads) && forall k :: Get(a, k).Some? ==> Get(b, k) == Get(a, k)
    ensures AllOk(hosts, b, threads)
  {
    hide Get;
    forall t | t in threads ensures PhaseOk(hosts, b, threads[t]) {
      assert PhaseOk(hosts, a, threads[t]);
      var h := if threads[t].Outside? || threads[t].Leaving? then "" else threads[t].host;
      assert Get(a, h).Some? ==> Get(b, h) == Get(a, h);
    }
  }

  /** With few hosts a lookup returns the one semaphore of the host, known or new. */
  lemma LookupKeeps(hosts: set<string>, w: World, host: string)
    requires Counted(hosts, w.threads, w.cache, w.values) && AllOk(hosts, w.cache, w.threads)
    requires host in hosts && host != "" && |hosts| <= MAX_HOST_SLOT_KEYS
    ensures var (v, ref) := Lookup(w, host);
            && v.threads == w.threads && v.global == w.global
            && Counted(hosts, v.threads, v.cache, v.values) && AllOk(hosts, v.cache, v.threads)
            && Refers(hosts, v.cache, host, ref)
  {
    hide Counted, AllOk, Get, Del, Holders;
    var v := Lookup(w, host).0;
    if Get(w.cache, host).Some? {
      HitKeeps(hosts, w, host);
      SamePhases(hosts, w.cache, v.cache, w.threads);
    } else {
      CountedKeys(hosts, w);
      RoomIsLeft(hosts, w.cache, host);
      NobodyHolds(hosts, w.cache, w.threads, host);
      MissKeeps(hosts, w, host);
      SamePhases(hosts, w.cache, v.cache, w.threads);
    }
  }

  lemma CountedKeys(hosts: set<string>, w: World)
    requires Counted(hosts, w.threads, w.cache, w.values)
    ensures UniqueKeys(w.cache) && forall k :: Has(w.cache, k) ==> k in hosts
  {
  }

  // ---- few hosts: one step ------------------------------------------------------------------

  lemma PermitsChange(threads: map<nat, Phase>, t: nat, p: Phase)
    ensures var was := t in threads && HasPermit(threads[t]);
            |Permits(threads[t := p])| == |Permits(threads)| + (if HasPermit(p) then 1 else 0) - (if was then 1 else 0)
  {
    var a, b := Permits(threads), Permits(threads[t := p]);
    assert b == if HasPermit(p) then a + {t} else a - {t};
  }

  lemma HoldersChange(threads: map<nat, Phase>, t: nat, p: Phase, host: string)
    ensures var was := t in threads && Holds(threads[t], host);
            |Holders(threads[t := p], host)|
            == |Holders(threads, host)| + (if Holds(p, host) then 1 else 0) - (if was then 1 else 0)
  {
    var a, b := Holders(threads, host), Holders(threads[t := p], host);
    assert b == if Holds(p, host) then a + {t} else a - {t};
  }

  /** A change of phase that neither takes nor gives a host permit. */
  lemma QuietKeeps(hosts: set<string>, w: World, t: nat, p: Phase)
    requires Counted(hosts, w.threads, w.cache, w.values) && AllOk(hosts, w.cache, w.threads)
    requires PhaseOk(hosts, w.cache, p) && forall k :: k != "" ==> (Holds(p, k) <==> Holds(PhaseOf(w, t), k))
    ensures Counted(hosts, w.threads[t := p], w.cache, w.values) && AllOk(hosts, w.cache, w.threads[t := p])
  {
    hide Get, Holders, Holds;
    forall k | k != "" ensures |Holders(w.threads[t := p], k)| == |Holders(w.threads, k)| {
      HoldersChange(w.threads, t, p, k);
      NobodyOutside(k);
    }
  }

  lemma NobodyOutside(k: string)
    ensures !Holds(Outside, k)
  {
  }

  /** Taking or giving the permit of a cached host. */
  lemma PermitKeeps(hosts: set<string>, w: World, t: nat, p: Phase, host: string, id: nat, value: nat)
    requires Counted(hosts, w.threads, w.cache, w.values) && AllOk(hosts, w.cache, w.threads)
    requires Get(w.cache, host) == Some(id) && PhaseOk(hosts, w.cache, p) && id < |w.values|
    requires value + (if Holds(p, host) then 1 else 0) == w.values[id] + (if Holds(PhaseOf(w, t), host) then 1 else 0)
    requires forall k :: k != host ==> !Holds(p, k) && !Holds(PhaseOf(w, t), k)
    ensures Counted(hosts, w.threads[t := p], w.cache, w.values[id := value])
    ensures AllOk(hosts, w.cache, w.threads[t := p])
  {
    hide Get, Holders, Holds;
    var threads := w.threads[t := p];
    forall k ensures |Holders(threads, k)| == |Holders(w.threads, k)| + (if Holds(p, k) then 1 else 0)
                                              - (if Holds(PhaseOf(w, t), k) then 1 else 0)
    {
      HoldersChange(w.threads, t, p, k);
      NobodyOutside(k);
    }
    assert Has(w.cache, host);
  }

  ghost predicate Fits(hosts: set<string>, w: World) {
    Counted(hosts, w.threads, w.cache, w.values) && AllOk(hosts, w.cache, w.threads)
  }

  lemma PhaseIsOk(hosts: set<string>, w: World, t: nat)
    requires Fits(hosts, w)
    ensures PhaseOk(hosts, w.cache, PhaseOf(w, t))
  {
    hide Counted, Get;
  }

  lemma LookFits(hosts: set<string>, w: World, t: nat, host: string, again: bool)
    requires Fits(hosts, w) && (host == "" || host in hosts) && |hosts| <= MAX_HOST_SLOT_KEYS
    requires PhaseOf(w, t) == if again then Probing(host) else Permitted(host)
    ensures var (v, ref) := Lookup(w, host);
            && v.threads == w.threads && v.global == w.global
            && Fits(hosts, Move(v, t, if again then Releasing(host, ref) else Found(host, ref)))
  {
    hide Counted, AllOk, Get, Lookup, Holders;
    var (v, ref) := Lookup(w, host);
    if host == "" { NoLookup(w); } else { LookupKeeps(hosts, w, host); }
    QuietKeeps(hosts, v, t, if again then Releasing(host, ref) else Found(host, ref));
  }

  lemma NoLookup(w: World)
    ensures Lookup(w, "") == (w, NoSemaphore)
  {
  }

  lemma TryFits(hosts: set<string>, w: World, t: nat)
    requires Fits(hosts, w) && PhaseOf(w, t).Found?
    ensures Fits(hosts, Step(w, Try(t)))
  {
    var host, ref := w.threads[t].host, w.threads[t].ref;
    PhaseIsOk(hosts, w, t);
    hide Counted, AllOk, Get, Holders, Lookup;
    if host == "" {
      QuietKeeps(hosts, w, t, Probing(host));
    } else if CanTake(w, ref) {
      CachedIs(hosts, w, host);
      PermitKeeps(hosts, w, t, Probing(host), host, ref.id, w.values[ref.id] - 1);
    } else {
      QuietKeeps(hosts, w, t, Refused(host));
    }
  }

  lemma CachedIs(hosts: set<string>, w: World, host: string)
    requires Fits(hosts, w) && Get(w.cache, host).Some?
    ensures Has(w.cache, host) && Get(w.cache, host).value < |w.values|
  {
    hide AllOk, Holders;
  }

  lemma FreeFits(hosts: set<string>, w: World, t: nat)
    requires Fits(hosts, w) && PhaseOf(w, t).Releasing?
    ensures Fits(hosts, Step(w, Free(t)))
  {
    var host, ref := w.threads[t].host, w.threads[t].ref;
    PhaseIsOk(hosts, w, t);
    hide Counted, AllOk, Get, Holders, Lookup;
    if host == "" {
      QuietKeeps(hosts, w, t, Leaving);
    } else {
      CachedIs(hosts, w, host);
      PermitKeeps(hosts, w, t, Leaving, host, ref.id, w.values[ref.id] + 1);
    }
  }

  lemma StepFits(hosts: set<string>, w: World, a: Act)
    requires Fits(hosts, w) && |hosts| <= MAX_HOST_SLOT_KEYS && (a.Ask? ==> a.host == "" || a.host in hosts)
    ensures Fits(hosts, Step(w, a))
  {
    hide Counted, AllOk, Get, Holders, Lookup, Fits;
    PhaseIsOk(hosts, w, a.t);
    var p := PhaseOf(w, a.t);
    match a
    case Ask(t, host) => if p.Outside? { QuietFits(hosts, w, w, t, Waiting(host)); }
    case GiveUp(t) => if p.Waiting? { QuietFits(hosts, w, w, t, Outside); }
    case TakeGlobal(t) =>
      if p.Waiting? && w.global > 0 { QuietFits(hosts, w, w.(global := w.global - 1), t, Permitted(p.host)); }
    case Look(t) => if p.Permitted? { LookFits(hosts, w, t, p.host, false); }
    case Try(t) => if p.Found? { TryFits(hosts, w, t); }
    case GiveBack(t) => if p.Refused? { QuietFits(hosts, w, w.(global := w.global + 1), t, Waiting(p.host)); }
    case LookAgain(t) => if p.Probing? { LookFits(hosts, w, t, p.host, true); }
    case Free(t) => if p.Releasing? { FreeFits(hosts, w, t); }
    case LeaveGlobal(t) => if p.Leaving? { QuietFits(hosts, w, w.(global := w.global + 1), t, Outside); }
  }

  lemma QuietFits(hosts: set<string>, w: World, v: World, t: nat, p: Phase)
    requires Fits(hosts, w) && v == w.(global := v.global) && PhaseOk(hosts, w.cache, p)
    requires !p.Probing? && !p.Releasing? && !PhaseOf(w, t).Probing? && !PhaseOf(w, t).Releasing?
    ensures Fits(hosts, Move(v, t, p))
  {
    hide Counted, AllOk, Get, Holders;
    QuietKeeps(hosts, w, t, p);
  }

  lemma LookupGlobal(w: World, host: string)
    ensures Lookup(w, host).0.global == w.global && Lookup(w, host).0.threads == w.threads
  {
    hide Evicted, Get, Del;
  }

  /** The process-wide permits are counted whatever the hosts are. */
  lemma StepCounts(w: World, a: Act)
    requires |Permits(w.threads)| + w.global == MAX_PROCESS_PROBES
    ensures |Permits(Step(w, a).threads)| + Step(w, a).global == MAX_PROCESS_PROBES
  {
    hide Lookup, Permits;
    var p := PhaseOf(w, a.t);
    var b := Step(w, a);
    if p.Permitted? || p.Probing? { LookupGlobal(w, p.host); }
    if b != w { PermitsChange(w.threads, a.t, PhaseOf(b, a.t)); }
  }

  lemma {:induction false} PermitsAreCounted(acts: seq<Act>)
    ensures |Permits(Run(START, acts).threads)| + Run(START, acts).global == 10
    decreases |acts|
  {
    if acts != [] {
      PermitsAreCounted(acts[..|acts| - 1]);
      StepCounts(Run(START, acts[..|acts| - 1]), acts[|acts| - 1]);
    }
  }

  lemma {:induction false} RunsFit(hosts: set<string>, acts: seq<Act>)
    requires Over(hosts, acts) && |hosts| <= MAX_HOST_SLOT_KEYS
    ensures Fits(hosts, Run(START, acts))
    decreases |acts|
  {
    hide Fits, Step;
    if acts == [] {
      StartFits(hosts);
    } else {
      var n := |acts| - 1;
      RunsFit(hosts, acts[..n]);
      StepFits(hosts, Run(START, acts[..n]), acts[n]);
    }
  }

  lemma StartFits(hosts: set<string>)
    ensures Fits(hosts, START)
  {
  }

  /** Over at most 256 hosts no run has more than two permits of a host out. */
  lemma FewHostsAreBounded(hosts: set<string>, acts: seq<Act>)
    requires Over(hosts, acts) && |hosts| <= 256
    ensures HostsBounded(Run(START, acts))
  {
    RunsFit(hosts, acts);
    var w := Run(START, acts);
    forall host | host != "" ensures |Holders(w.threads, host)| <= MAX_PER_HOST {
      if !Has(w.cache, host) { NobodyHolds(hosts, w.cache, w.threads, host); }
    }
  }
}
