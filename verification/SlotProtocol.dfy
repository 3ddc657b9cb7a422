/** Every run of any number of threads over the probe slots (live402/probe.py): how many permits
    are out, which host semaphore a release goes back to, that only threads without a permit wait,
    and that whoever holds one gives it back by itself. Lookup and try-acquire are one step here;
    SlotLookups takes them apart. */
module SlotProtocol {
  import opened Collections
  import opened Slots

  /** Where a thread is: waiting for a process-wide permit, holding one and about to try its host,
      refused by a busy host and about to give the permit back, probing, or between its releases. */
  datatype Phase =
    | Outside
    | Waiting(host: string)
    | Permitted(host: string)
    | Refused(host: string)
    | Probing(host: string, sem: Option<nat>)
    | Leaving

  /** The phases with a process-wide permit. */
  predicate HasPermit(p: Phase) {
    !p.Outside? && !p.Waiting?
  }

  datatype World = World(slots: Slots, threads: map<nat, Phase>)

  datatype Act =
    | Ask(t: nat, host: string)
    | GiveUp(t: nat)
    | TakeGlobal(t: nat)
    | TakeHost(t: nat)
    | GiveBack(t: nat)
    | LeaveHost(t: nat)
    | LeaveGlobal(t: nat)

  const START := World(FREE, map[])

  function PhaseOf(w: World, t: nat): Phase {
    if t in w.threads then w.threads[t] else Outside
  }

  /** The semaphore that a try-acquire for the host takes, if it takes one of its own. */
  function Taken(s: Slots, host: string): Option<nat> {
    if host == "" || Overflows(s.hosts, host) then None else Some(Last(Looked(s, host).hosts).id)
  }

  /** Can the thread take this step now? Only taking a process-wide permit waits for something. */
  predicate Enabled(w: World, a: Act) {
    var p := PhaseOf(w, a.t);
    match a
    case Ask(_, _) => p.Outside?
    case GiveUp(_) => p.Waiting?
    case TakeGlobal(_) => p.Waiting? && w.slots.global > 0
    case TakeHost(_) => p.Permitted?
    case GiveBack(_) => p.Refused?
    case LeaveHost(_) => p.Probing?
    case LeaveGlobal(_) => p.Leaving?
  }

  /** One step; a step that is not enabled changes nothing. A thread that a busy host refused
      waits for a permit again, and one whose time is up gives up. */
  function Step(w: World, a: Act): World {
    if !Enabled(w, a) then w
    else
      var s := w.slots;
      match a
      case Ask(t, host) => World(s, w.threads[t := Waiting(host)])
      case GiveUp(t) => World(s, w.threads[t := Outside])
      case TakeGlobal(t) => World(s.(global := s.global - 1), w.threads[t := Permitted(w.threads[t].host)])
      case TakeHost(t) =>
        var host := w.threads[t].host;
        World(TryHost(s, host),
              w.threads[t := if Admits(s, host) then Probing(host, Taken(s, host)) else Refused(host)])
      case GiveBack(t) => World(s.(global := s.global + 1), w.threads[t := Waiting(w.threads[t].host)])
      case LeaveHost(t) => World(FreeHost(s, w.threads[t].host), w.threads[t := Leaving])
      case LeaveGlobal(t) => World(s.(global := s.global + 1), w.threads[t := Outside])
  }

  function Run(w: World, acts: seq<Act>): World
    decreases |acts|
  {
    if acts == [] then w else Step(Run(w, acts[..|acts| - 1]), acts[|acts| - 1])
  }

  /** The threads that hold a process-wide permit. */
  function Permits(threads: map<nat, Phase>): set<nat> {
    set t | t in threads && HasPermit(threads[t])
  }

  /** The threads that probe a host. */
  function Holders(threads: map<nat, Phase>, host: string): set<nat> {
    set t | t in threads && threads[t].Probing? && threads[t].host == host
  }

  // ---- the invariant ------------------------------------------------------------------------

  /** Each cached host counts its holders, and all of them hold its semaphore. */
  ghost predicate Counted(threads: map<nat, Phase>, d: Hosts, id: nat) {
    && UniqueKeys(d)
    && (forall it :: it in d ==> it.key != "" && it.value.value + |Holders(threads, it.key)| == MAX_PER_HOST)
    && (forall it :: it in d ==> it.value.id < id)
    && (forall t, it :: t in threads && it in d && threads[t].Probing? && threads[t].host == it.key ==>
                          threads[t].sem == Some(it.value.id))
  }

  /** The semaphore of every probed host is in the cache. */
  ghost predicate Cached(threads: map<nat, Phase>, d: Hosts) {
    forall t :: t in threads && threads[t].Probing? && threads[t].host != "" ==> Has(d, threads[t].host)
  }

  ghost predicate Safe(w: World) {
    && |Permits(w.threads)| + w.slots.global == MAX_PROCESS_PROBES
    && |w.slots.hosts| <= MAX_HOST_SLOT_KEYS
    && w.slots.overflow == 1
    && Counted(w.threads, w.slots.hosts, w.slots.nextId)
    && Cached(w.threads, w.slots.hosts)
  }

  // ---- the cache is never full of held hosts ------------------------------------------------

  lemma {:induction false} DistinctHolders(threads: map<nat, Phase>, d: Hosts, who: set<nat>)
    requires UniqueKeys(d)
    requires forall i :: 0 <= i < |d| ==> Holders(threads, d[i].key) * who != {}
    ensures |d| <= |who|
    decreases |d|
  {
    if d != [] {
      var t :| t in Holders(threads, d[0].key) * who;
      forall i | 0 <= i < |d[1..]| ensures Holders(threads, d[1..][i].key) * (who - {t}) != {} {
        assert d[1..][i] == d[i + 1] && d[0].key != d[i + 1].key;
        var u :| u in Holders(threads, d[i + 1].key) * who;
        assert u in Holders(threads, d[i + 1].key) * (who - {t});
      }
      DistinctHolders(threads, d[1..], who - {t});
    }
  }

  lemma SomeReleased(threads: map<nat, Phase>, d: Hosts, id: nat)
    requires Counted(threads, d, id) && |Permits(threads)| <= MAX_PROCESS_PROBES && |d| > MAX_PROCESS_PROBES
    ensures FirstReleased(d) < |d|
  {
    if forall i :: 0 <= i < |d| ==> !Released(d[i].value) {
      forall i | 0 <= i < |d| ensures Holders(threads, d[i].key) * Permits(threads) != {} {
        assert d[i] in d;
        var t :| t in Holders(threads, d[i].key);
        assert t in Permits(threads) && t in Holders(threads, d[i].key) * Permits(threads);
      }
      DistinctHolders(threads, d, Permits(threads));
    }
  }

  lemma WithoutMembers(d: Hosts, i: nat)
    requires i < |d| && UniqueKeys(d)
    ensures UniqueKeys(Without(d, i))
    ensures forall it :: it in Without(d, i) <==> it in d && it != d[i]
    ensures forall k :: Has(d, k) && k != d[i].key ==> Has(Without(d, i), k)
  {
    var r := Without(d, i);
    forall it | it in d && it != d[i] ensures it in r {
      var j :| 0 <= j < |d| && d[j] == it;
      assert if j < i then r[j] == it else r[j - 1] == it;
    }
    forall k | Has(d, k) && k != d[i].key ensures Has(r, k) {
      var j :| 0 <= j < |d| && d[j].key == k;
      assert if j < i then r[j].key == k else r[j - 1].key == k;
    }
  }

  /** Eviction leaves the counts right, keeps every held host, and always finds room. */
  lemma MakeRoomKeeps(threads: map<nat, Phase>, d: Hosts, id: nat)
    requires Counted(threads, d, id) && Cached(threads, d) && |d| <= MAX_HOST_SLOT_KEYS
    requires |Permits(threads)| <= MAX_PROCESS_PROBES
    ensures var r := MakeRoom(d);
            && Counted(threads, r, id) && Cached(threads, r) && |r| < MAX_HOST_SLOT_KEYS
            && forall it :: it in r ==> it in d
  {
    if |d| == MAX_HOST_SLOT_KEYS {
      SomeReleased(threads, d, id);
      var i := FirstReleased(d);
      WithoutMembers(d, i);
      assert d[i] in d && Holders(threads, d[i].key) == {};
      forall t | t in threads && threads[t].Probing? && threads[t].host != ""
        ensures Has(Without(d, i), threads[t].host)
      {
        assert t in Holders(threads, threads[t].host);
      }
    }
  }

  lemma SubsetHas(r: Hosts, d: Hosts, k: string)
    requires forall it :: it in r ==> it in d
    ensures Has(r, k) ==> Has(d, k)
  {
    if Has(r, k) {
      var i :| 0 <= i < |r| && r[i].key == k;
      assert r[i] in r;
      var j :| 0 <= j < |d| && d[j] == r[i];
    }
  }

  lemma HeldIsCached(threads: map<nat, Phase>, d: Hosts, host: string)
    requires Cached(threads, d) && host != ""
    ensures Holders(threads, host) != {} ==> Has(d, host)
  {
    if t :| t in Holders(threads, host) {
      assert Has(d, threads[t].host);
    }
  }

  // ---- a lookup -----------------------------------------------------------------------------

  /** The caches before and after a lookup: only the host's own entry may be new. */
  ghost predicate LookedUp(threads: map<nat, Phase>, d: Hosts, r: Hosts, host: string, id: nat) {
    && UniqueKeys(r) && Has(r, host)
    && (forall it :: it in r ==> it in d || (it == Item(host, Sem(id, MAX_PER_HOST)) && Holders(threads, host) == {}))
    && forall k :: Has(d, k) && (k == "" || Holders(threads, k) != {}) ==> Has(r, k)
  }

  lemma LookedUpKeeps(threads: map<nat, Phase>, d: Hosts, r: Hosts, host: string, id: nat, next: nat)
    requires Counted(threads, d, id) && Cached(threads, d) && host != ""
    requires LookedUp(threads, d, r, host, id) && next >= id && (Item(host, Sem(id, MAX_PER_HOST)) in r ==> next > id)
    ensures Counted(threads, r, next) && Cached(threads, r)
  {
    forall t | t in threads && threads[t].Probing? && threads[t].host != "" ensures Has(r, threads[t].host) {
      assert t in Holders(threads, threads[t].host);
    }
    forall t, it | t in threads && it in r && threads[t].Probing? && threads[t].host == it.key
      ensures threads[t].sem == Some(it.value.id)
    {
      assert t in Holders(threads, it.key);
    }
  }

  lemma HitIsLookup(threads: map<nat, Phase>, d: Hosts, host: string, id: nat)
    requires UniqueKeys(d) && Get(d, host).Some?
    ensures LookedUp(threads, d, Touch(d, host, id), host, id) && |Touch(d, host, id)| == |d|
    ensures forall it :: it in Touch(d, host, id) ==> it in d
    ensures Touch(d, host, id)[|d| - 1].key == host
  {
    var rest := Del(d, host);
    var sem := Get(d, host).value;
    DelFacts(d, host);
    AppendFacts(rest, host, sem);
    var r := Touch(d, host, id);
    hide Get, Del;
    assert r == rest + [Item(host, sem)];
    forall k | Has(d, k) ensures Has(r, k) {
      assert k == host || Get(rest, k) == Get(d, k);
    }
  }

  /** Every held host is still found after evictions and a new entry. */
  lemma HeldStays(threads: map<nat, Phase>, d: Hosts, room: Hosts, r: Hosts, host: string, id: nat)
    requires Counted(threads, d, id) && Cached(threads, room)
    requires Has(r, host) && forall k :: k != host ==> Get(r, k) == Get(room, k)
    ensures forall k :: Has(d, k) && (k == "" || Holders(threads, k) != {}) ==> Has(r, k)
  {
    hide Get, Counted;
    forall k | Has(d, k) && (k == "" || Holders(threads, k) != {}) ensures Has(r, k) {
      EntryKey(threads, d, id, k);
      var t :| t in Holders(threads, k);
      assert Has(room, threads[t].host);
      assert Get(r, k) == Get(room, k) || k == host;
    }
  }

  lemma MissIsLookup(threads: map<nat, Phase>, d: Hosts, host: string, id: nat)
    requires Counted(threads, d, id) && Cached(threads, d) && |d| <= MAX_HOST_SLOT_KEYS
    requires |Permits(threads)| <= MAX_PROCESS_PROBES && host != "" && Get(d, host).None?
    ensures !Overflows(d, host)
    ensures var r := Touch(d, host, id);
            && LookedUp(threads, d, r, host, id) && 0 < |r| <= MAX_HOST_SLOT_KEYS && r[|r| - 1].key == host
  {
    hide MakeRoom, Get, Has, UniqueKeys, Counted, Cached;
    var room := MakeRoom(d);
    MakeRoomKeeps(threads, d, id);
    SubsetHas(room, d, host);
    CountedUnique(threads, room, id);
    AppendFacts(room, host, Sem(id, MAX_PER_HOST));
    HeldIsCached(threads, d, host);
    var r := Touch(d, host, id);
    assert r == room + [Item(host, Sem(id, MAX_PER_HOST))];
    HeldStays(threads, d, room, r, host, id);
  }

  lemma EntryKey(threads: map<nat, Phase>, d: Hosts, id: nat, k: string)
    requires Counted(threads, d, id) && Has(d, k)
    ensures k != ""
  {
    var i :| 0 <= i < |d| && d[i].key == k;
    assert d[i] in d;
  }

  /** A lookup keeps the counts, never needs the overflow semaphore, and leaves the host last with
      the semaphore it had, or with a new one that nobody holds. */
  lemma LookupKeeps(threads: map<nat, Phase>, s: Slots, host: string)
    requires Counted(threads, s.hosts, s.nextId) && Cached(threads, s.hosts) && |s.hosts| <= MAX_HOST_SLOT_KEYS
    requires |Permits(threads)| <= MAX_PROCESS_PROBES && host != ""
    ensures var l := Looked(s, host);
            && !Overflows(s.hosts, host)
            && Counted(threads, l.hosts, l.nextId) && Cached(threads, l.hosts) && |l.hosts| <= MAX_HOST_SLOT_KEYS
            && l.global == s.global && l.overflow == s.overflow
            && l.hosts[|l.hosts| - 1].key == host
  {
    var d := s.hosts;
    var r := Touch(d, host, s.nextId);
    if Get(d, host).Some? {
      CountedUnique(threads, d, s.nextId);
      HitIsLookup(threads, d, host, s.nextId);
      NoNewId(threads, d, r, host, s.nextId);
      LookedUpKeeps(threads, d, r, host, s.nextId, s.nextId);
    } else {
      MissIsLookup(threads, d, host, s.nextId);
      LookedUpKeeps(threads, d, r, host, s.nextId, s.nextId + 1);
    }
  }

  lemma CountedUnique(threads: map<nat, Phase>, d: Hosts, id: nat)
    requires Counted(threads, d, id)
    ensures UniqueKeys(d)
  {
  }

  lemma NoNewId(threads: map<nat, Phase>, d: Hosts, r: Hosts, host: string, id: nat)
    requires Counted(threads, d, id) && forall it :: it in r ==> it in d
    ensures Item(host, Sem(id, MAX_PER_HOST)) !in r
  {
  }

  // ---- one step -----------------------------------------------------------------------------

  lemma PermitsChange(threads: map<nat, Phase>, t: nat, p: Phase)
    ensures var a, b := Permits(threads), Permits(threads[t := p]);
            |b| == |a| + (if HasPermit(p) then 1 else 0) - (if t in a then 1 else 0)
  {
    var a, b := Permits(threads), Permits(threads[t := p]);
    assert b == if HasPermit(p) then a + {t} else a - {t};
  }

  /** A thread that is not probing a host before or after a change does not count for it. */
  lemma HoldersSame(threads: map<nat, Phase>, t: nat, p: Phase, host: string)
    requires !(t in threads && threads[t].Probing? && threads[t].host == host) && !(p.Probing? && p.host == host)
    ensures Holders(threads[t := p], host) == Holders(threads, host)
  {
  }

  lemma HoldersGain(threads: map<nat, Phase>, t: nat, p: Phase)
    requires p.Probing? && !(t in threads && threads[t].Probing?)
    ensures |Holders(threads[t := p], p.host)| == |Holders(threads, p.host)| + 1
  {
    assert Holders(threads[t := p], p.host) == Holders(threads, p.host) + {t};
  }

  lemma HoldersLose(threads: map<nat, Phase>, t: nat, p: Phase)
    requires t in threads && threads[t].Probing? && !p.Probing?
    ensures |Holders(threads[t := p], threads[t].host)| == |Holders(threads, threads[t].host)| - 1
  {
    assert Holders(threads[t := p], threads[t].host) == Holders(threads, threads[t].host) - {t};
  }

  /** A change between phases without a host semaphore leaves all host counts alone. */
  lemma QuietKeeps(threads: map<nat, Phase>, t: nat, p: Phase, d: Hosts, id: nat)
    requires Counted(threads, d, id) && Cached(threads, d)
    requires !p.Probing? || p.host == ""
    requires t in threads && threads[t].Probing? ==> threads[t].host == ""
    ensures Counted(threads[t := p], d, id) && Cached(threads[t := p], d)
  {
    forall it | it in d ensures Holders(threads[t := p], it.key) == Holders(threads, it.key) {
      HoldersSame(threads, t, p, it.key);
    }
  }

  lemma SetLastMembers(d: Hosts, value: nat)
    requires d != [] && UniqueKeys(d)
    ensures var r := SetLast(d, value);
            && UniqueKeys(r) && |r| == |d|
            && (forall it :: it in r ==> it == Item(d[|d| - 1].key, Last(d).(value := value))
                                         || (it in d && it.key != d[|d| - 1].key))
            && forall k :: Has(d, k) ==> Has(r, k)
  {
    var r := SetLast(d, value);
    forall k | Has(d, k) ensures Has(r, k) {
      var i :| 0 <= i < |d| && d[i].key == k;
      assert r[i].key == k;
    }
  }

  /** The last host of the cache is taken by one more thread. */
  lemma EnterKeeps(threads: map<nat, Phase>, t: nat, d: Hosts, id: nat)
    requires Counted(threads, d, id) && Cached(threads, d) && d != [] && Last(d).value > 0
    requires !(t in threads && threads[t].Probing?)
    ensures var host := d[|d| - 1].key;
            var after := threads[t := Probing(host, Some(Last(d).id))];
            Counted(after, SetLast(d, Last(d).value - 1), id) && Cached(after, SetLast(d, Last(d).value - 1))
  {
    var last := d[|d| - 1];
    var p := Probing(last.key, Some(last.value.id));
    SetLastMembers(d, Last(d).value - 1);
    HoldersGain(threads, t, p);
    assert last in d && Has(d, last.key);
    forall it | it in d && it.key != last.key ensures Holders(threads[t := p], it.key) == Holders(threads, it.key) {
      HoldersSame(threads, t, p, it.key);
    }
  }

  /** The last host of the cache is left by one of its holders. */
  lemma LeaveKeeps(threads: map<nat, Phase>, t: nat, d: Hosts, id: nat)
    requires Counted(threads, d, id) && Cached(threads, d) && d != []
    requires t in threads && threads[t].Probing? && threads[t].host == d[|d| - 1].key
    ensures var after := threads[t := Leaving];
            Counted(after, SetLast(d, Last(d).value + 1), id) && Cached(after, SetLast(d, Last(d).value + 1))
  {
    var last := d[|d| - 1];
    SetLastMembers(d, Last(d).value + 1);
    HoldersLose(threads, t, Leaving);
    assert last in d;
    forall it | it in d && it.key != last.key
      ensures Holders(threads[t := Leaving], it.key) == Holders(threads, it.key)
    {
      HoldersSame(threads, t, Leaving, it.key);
    }
  }

  lemma TryHostIs(s: Slots, host: string)
    requires host != "" && !Overflows(s.hosts, host)
    ensures var l := Looked(s, host);
            && l.hosts != [] && (Admits(s, host) <==> Last(l.hosts).value > 0)
            && Taken(s, host) == Some(Last(l.hosts).id)
            && TryHost(s, host) == (if Admits(s, host) then l.(hosts := SetLast(l.hosts, Last(l.hosts).value - 1))
                                    else l)
            && FreeHost(s, host) == l.(hosts := SetLast(l.hosts, Last(l.hosts).value + 1))
  {
  }

  lemma NoHostIs(s: Slots)
    ensures TryHost(s, "") == s == FreeHost(s, "") && Admits(s, "") && Taken(s, "") == None
  {
  }

  lemma SetLastLength(d: Hosts, value: nat)
    requires d != []
    ensures |SetLast(d, value)| == |d|
  {
  }

  lemma PartsSafe(w: World)
    requires Safe(w)
    ensures |Permits(w.threads)| + w.slots.global == MAX_PROCESS_PROBES && w.slots.overflow == 1
    ensures |w.slots.hosts| <= MAX_HOST_SLOT_KEYS
    ensures Counted(w.threads, w.slots.hosts, w.slots.nextId) && Cached(w.threads, w.slots.hosts)
  {
  }

  /** One thread's phase changes and the cache is one that suits the change. */
  lemma ChangeSafe(w: World, t: nat, p: Phase, slots: Slots)
    requires Safe(w) && HasPermit(p) && HasPermit(PhaseOf(w, t))
    requires slots.global == w.slots.global && slots.overflow == w.slots.overflow
    requires |slots.hosts| <= MAX_HOST_SLOT_KEYS
    requires Counted(w.threads[t := p], slots.hosts, slots.nextId) && Cached(w.threads[t := p], slots.hosts)
    ensures Safe(World(slots, w.threads[t := p]))
  {
    hide Counted, Cached, Permits;
    PermitsChange(w.threads, t, p);
    HoldsPermit(w.threads, t);
  }

  lemma HostlessSafe(w: World, t: nat, p: Phase)
    requires Safe(w) && HasPermit(PhaseOf(w, t)) && HasPermit(p)
    requires (PhaseOf(w, t).Probing? ==> w.threads[t].host == "") && (p.Probing? ==> p.host == "")
    ensures Safe(World(w.slots, w.threads[t := p]))
  {
    hide Counted, Cached, Permits;
    QuietKeeps(w.threads, t, p, w.slots.hosts, w.slots.nextId);
    ChangeSafe(w, t, p, w.slots);
  }

  lemma AdmittedSafe(w: World, t: nat, host: string)
    requires Safe(w) && PhaseOf(w, t) == Permitted(host) && host != "" && Admits(w.slots, host)
    ensures Safe(World(TryHost(w.slots, host), w.threads[t := Probing(host, Taken(w.slots, host))]))
  {
    PartsSafe(w);
    hide Safe, Counted, Cached, Permits, Looked, TryHost, FreeHost, Admits, Taken, SetLast, Overflows;
    LookupKeeps(w.threads, w.slots, host);
    TryHostIs(w.slots, host);
    var l := Looked(w.slots, host);
    EnterKeeps(w.threads, t, l.hosts, l.nextId);
    SetLastLength(l.hosts, Last(l.hosts).value - 1);
    ChangeSafe(w, t, Probing(host, Taken(w.slots, host)), TryHost(w.slots, host));
  }

  lemma RefusedSafe(w: World, t: nat, host: string)
    requires Safe(w) && PhaseOf(w, t) == Permitted(host) && host != "" && !Admits(w.slots, host)
    ensures Safe(World(TryHost(w.slots, host), w.threads[t := Refused(host)]))
  {
    PartsSafe(w);
    hide Safe, Counted, Cached, Permits, Looked, TryHost, FreeHost, Admits, Taken, SetLast, Overflows;
    LookupKeeps(w.threads, w.slots, host);
    TryHostIs(w.slots, host);
    var l := Looked(w.slots, host);
    QuietKeeps(w.threads, t, Refused(host), l.hosts, l.nextId);
    ChangeSafe(w, t, Refused(host), l);
  }

  lemma TakeHostSafe(w: World, t: nat)
    requires Safe(w) && PhaseOf(w, t).Permitted?
    ensures Safe(Step(w, TakeHost(t)))
  {
    hide Safe, TryHost, Admits, Taken;
    var host := w.threads[t].host;
    NoHostIs(w.slots);
    if host == "" {
      HostlessSafe(w, t, Probing("", None));
    } else if Admits(w.slots, host) {
      AdmittedSafe(w, t, host);
    } else {
      RefusedSafe(w, t, host);
    }
  }

  lemma LeavingSafe(w: World, t: nat, host: string)
    requires Safe(w) && PhaseOf(w, t).Probing? && w.threads[t].host == host && host != ""
    ensures Safe(World(FreeHost(w.slots, host), w.threads[t := Leaving]))
  {
    PartsSafe(w);
    hide Safe, Counted, Cached, Permits, Looked, TryHost, FreeHost, Admits, Taken, SetLast, Overflows;
    LookupKeeps(w.threads, w.slots, host);
    TryHostIs(w.slots, host);
    var l := Looked(w.slots, host);
    LeaveKeeps(w.threads, t, l.hosts, l.nextId);
    SetLastLength(l.hosts, Last(l.hosts).value + 1);
    ChangeSafe(w, t, Leaving, FreeHost(w.slots, host));
  }

  lemma LeaveHostSafe(w: World, t: nat)
    requires Safe(w) && PhaseOf(w, t).Probing?
    ensures Safe(Step(w, LeaveHost(t)))
  {
    hide Safe, FreeHost;
    var host := w.threads[t].host;
    NoHostIs(w.slots);
    if host == "" {
      HostlessSafe(w, t, Leaving);
    } else {
      LeavingSafe(w, t, host);
    }
  }

  lemma StepSafe(w: World, a: Act)
    requires Safe(w)
    ensures Safe(Step(w, a))
  {
    hide Counted, Cached, TryHost, FreeHost, Admits, Permits;
    match a
    case Ask(t, host) => WithoutPermitSafe(w, t, Waiting(host));
    case GiveUp(t) => WithoutPermitSafe(w, t, Outside);
    case TakeGlobal(t) =>
      if Enabled(w, a) { TakeSafe(w, t, w.threads[t].host); }
    case TakeHost(t) => if PhaseOf(w, t).Permitted? { TakeHostSafe(w, t); }
    case GiveBack(t) => if PhaseOf(w, t).Refused? { GiveSafe(w, t, Waiting(w.threads[t].host)); }
    case LeaveHost(t) => if PhaseOf(w, t).Probing? { LeaveHostSafe(w, t); }
    case LeaveGlobal(t) => if PhaseOf(w, t).Leaving? { GiveSafe(w, t, Outside); }
  }

  lemma WithoutPermitSafe(w: World, t: nat, p: Phase)
    requires Safe(w) && !HasPermit(p)
    ensures !HasPermit(PhaseOf(w, t)) ==> Safe(World(w.slots, w.threads[t := p]))
  {
    hide Counted, Cached, Permits;
    if !HasPermit(PhaseOf(w, t)) {
      PermitsChange(w.threads, t, p);
      OutsideHoldsNothing(w.threads, t);
      QuietKeeps(w.threads, t, p, w.slots.hosts, w.slots.nextId);
    }
  }

  lemma TakeSafe(w: World, t: nat, host: string)
    requires Safe(w) && !HasPermit(PhaseOf(w, t)) && w.slots.global > 0
    ensures Safe(World(w.slots.(global := w.slots.global - 1), w.threads[t := Permitted(host)]))
  {
    hide Counted, Cached, Permits;
    PermitsChange(w.threads, t, Permitted(host));
    OutsideHoldsNothing(w.threads, t);
    QuietKeeps(w.threads, t, Permitted(host), w.slots.hosts, w.slots.nextId);
  }

  lemma GiveSafe(w: World, t: nat, p: Phase)
    requires Safe(w) && HasPermit(PhaseOf(w, t)) && !PhaseOf(w, t).Probing? && !HasPermit(p)
    ensures Safe(World(w.slots.(global := w.slots.global + 1), w.threads[t := p]))
  {
    hide Counted, Cached, Permits;
    PermitsChange(w.threads, t, p);
    HoldsPermit(w.threads, t);
    QuietKeeps(w.threads, t, p, w.slots.hosts, w.slots.nextId);
  }

  lemma OutsideHoldsNothing(threads: map<nat, Phase>, t: nat)
    requires t in threads ==> !HasPermit(threads[t])
    ensures t !in Permits(threads)
  {
  }

  lemma HoldsPermit(threads: map<nat, Phase>, t: nat)
    requires t in threads && HasPermit(threads[t])
    ensures t in Permits(threads)
  {
  }

  lemma {:induction false} RunsAreSafe(acts: seq<Act>)
    ensures Safe(Run(START, acts))
    decreases |acts|
  {
    if acts != [] {
      RunsAreSafe(acts[..|acts| - 1]);
      StepSafe(Run(START, acts[..|acts| - 1]), acts[|acts| - 1]);
    }
  }

  // ---- what the runs promise ----------------------------------------------------------------

  /** In every reachable state at most 10 process permits are out and at most 2 per host, and a
      host's semaphore counts exactly the permits that are not out. */
  lemma PermitsAreBounded(acts: seq<Act>, host: string)
    ensures var w := Run(START, acts);
            && |Permits(w.threads)| <= 10
            && (host != "" ==> |Holders(w.threads, host)| <= 2)
            && (Get(w.slots.hosts, host).Some? ==>
                  Get(w.slots.hosts, host).value.value == 2 - |Holders(w.threads, host)|)
            && |w.slots.hosts| <= 256
  {
    RunsAreSafe(acts);
    var w := Run(START, acts);
    if host != "" { HeldIsCached(w.threads, w.slots.hosts, host); }
  }

  /** The semaphore a thread acquired is still its host's when the thread releases, and the
      overflow semaphore is never taken or released. */
  lemma ReleaseReturnsToTheAcquired(acts: seq<Act>, t: nat)
    requires var w := Run(START, acts); PhaseOf(w, t).Probing? && w.threads[t].host != ""
    ensures var w := Run(START, acts);
            var host := w.threads[t].host;
            && !Overflows(w.slots.hosts, host)
            && Get(w.slots.hosts, host).Some?
            && w.threads[t].sem == Some(Get(w.slots.hosts, host).value.id)
            && Last(FreeHost(w.slots, host).hosts)
               == Get(w.slots.hosts, host).value.(value := Get(w.slots.hosts, host).value.value + 1)
            && Step(w, LeaveHost(t)).slots.overflow == 1
  {
    RunsAreSafe(acts);
    var w := Run(START, acts);
    LookupKeeps(w.threads, w.slots, w.threads[t].host);
    StepSafe(w, LeaveHost(t));
  }

  // ---- who waits ----------------------------------------------------------------------------

  /** What a thread does next in acquire_probe_slot, its probe and release_probe_slot. */
  function Next(w: World, t: nat): Act {
    match PhaseOf(w, t)
    case Outside => Ask(t, "")
    case Waiting(_) => TakeGlobal(t)
    case Permitted(_) => TakeHost(t)
    case Refused(_) => GiveBack(t)
    case Probing(_, _) => LeaveHost(t)
    case Leaving => LeaveGlobal(t)
  }

  predicate Blocked(w: World, t: nat) {
    !Enabled(w, Next(w, t))
  }

  /** How many of its own steps a thread is from having no permit, when it goes on at once. */
  function Rank(p: Phase): nat {
    match p
    case Outside => 0
    case Waiting(_) => 0
    case Refused(_) => 1
    case Leaving => 1
    case Probing(_, _) => 2
    case Permitted(_) => 3
  }

  /** A thread's steps leave the phases of the others alone. */
  lemma OthersKeepTheirPhase(w: World, a: Act, u: nat)
    requires a.t != u
    ensures PhaseOf(Step(w, a), u) == PhaseOf(w, u)
  {
    hide TryHost, FreeHost, Admits, Taken;
  }

  /** An own step brings a holder nearer to giving its permit back; the last one gives it back. */
  lemma OwnStep(w: World, t: nat)
    requires HasPermit(PhaseOf(w, t))
    ensures var b := Step(w, Next(w, t));
            && Enabled(w, Next(w, t)) && Rank(PhaseOf(b, t)) < Rank(PhaseOf(w, t))
            && (if HasPermit(PhaseOf(b, t)) then b.slots.global == w.slots.global
                else b.slots.global == w.slots.global + 1)
  {
    GlobalStays(w.slots, if PhaseOf(w, t).Leaving? then "" else w.threads[t].host);
    hide TryHost, FreeHost, Admits, Taken;
  }

  lemma GlobalStays(s: Slots, host: string)
    ensures TryHost(s, host).global == s.global && FreeHost(s, host).global == s.global
  {
    hide Overflows, Touch, Admits;
  }

  /** The thread takes n of its next steps in a row. */
  function Alone(w: World, t: nat, n: nat): World
    decreases n
  {
    if n == 0 then w else Alone(Step(w, Next(w, t)), t, n - 1)
  }

  lemma {:induction false} AloneFrees(w: World, t: nat) returns (n: nat)
    requires HasPermit(PhaseOf(w, t))
    ensures n <= Rank(PhaseOf(w, t)) && Alone(w, t, n).slots.global == w.slots.global + 1
    ensures forall u :: u != t ==> PhaseOf(Alone(w, t, n), u) == PhaseOf(w, u)
    decreases Rank(PhaseOf(w, t))
  {
    hide Step, Enabled, Next;
    OwnStep(w, t);
    var b := Step(w, Next(w, t));
    NextIsOwn(w, t);
    forall u | u != t ensures PhaseOf(b, u) == PhaseOf(w, u) { OthersKeepTheirPhase(w, Next(w, t), u); }
    if HasPermit(PhaseOf(b, t)) {
      var m := AloneFrees(b, t);
      n := m + 1;
    } else {
      n := 1;
      assert Alone(b, t, 0) == b;
    }
  }

  lemma NextIsOwn(w: World, t: nat)
    ensures Next(w, t).t == t
  {
  }

  /** In every reachable state: a blocked thread holds no permit and waits for a process-wide one,
      all of them are out, and any of their holders frees one for it within three steps of its own,
      whatever the hosts' semaphores are. So there is no deadlock. */
  lemma BlockedIsFreed(acts: seq<Act>, t: nat) returns (holder: nat, n: nat)
    requires Blocked(Run(START, acts), t)
    ensures var w := Run(START, acts);
            && PhaseOf(w, t).Waiting? && t !in Permits(w.threads) && |Permits(w.threads)| == 10
            && holder in Permits(w.threads) && n <= 3
            && Enabled(Alone(w, holder, n), TakeGlobal(t))
  {
    RunsAreSafe(acts);
    var w := Run(START, acts);
    hide Run, Step, Counted, Cached, Alone;
    assert w.slots.global == 0 && |Permits(w.threads)| == MAX_PROCESS_PROBES;
    holder :| holder in Permits(w.threads);
    n := AloneFrees(w, holder);
  }

  /** The thread holds a permit all along. */
  ghost predicate HoldsThroughout(w: World, acts: seq<Act>, t: nat) {
    forall i :: 0 <= i <= |acts| ==> HasPermit(PhaseOf(Run(w, acts[..i]), t))
  }

  /** How many of these steps are the thread's own and enabled. */
  function OwnSteps(w: World, acts: seq<Act>, t: nat): nat
    decreases |acts|
  {
    if acts == [] then 0
    else
      var before := acts[..|acts| - 1];
      var last := acts[|acts| - 1];
      OwnSteps(w, before, t) + if last.t == t && Enabled(Run(w, before), last) then 1 else 0
  }

  lemma EnabledIsNext(w: World, a: Act)
    requires HasPermit(PhaseOf(w, a.t)) && Enabled(w, a)
    ensures a == Next(w, a.t)
  {
  }

  lemma {:induction false} OwnStepsLower(w: World, acts: seq<Act>, t: nat)
    requires HoldsThroughout(w, acts, t)
    ensures OwnSteps(w, acts, t) + Rank(PhaseOf(Run(w, acts), t)) <= Rank(PhaseOf(w, t))
    decreases |acts|
  {
    hide Step, Enabled, Next, Rank, HasPermit;
    if acts != [] {
      var before, last := acts[..|acts| - 1], acts[|acts| - 1];
      forall i | 0 <= i <= |before| ensures HasPermit(PhaseOf(Run(w, before[..i]), t)) {
        assert before[..i] == acts[..i];
      }
      OwnStepsLower(w, before, t);
      var mid := Run(w, before);
      assert before[..|before|] == before;
      if last.t != t {
        OthersKeepTheirPhase(mid, last, t);
      } else if Enabled(mid, last) {
        EnabledIsNext(mid, last);
        OwnStep(mid, t);
      } else {
        NothingHappens(mid, last);
      }
    }
  }

  lemma NothingHappens(w: World, a: Act)
    requires !Enabled(w, a)
    ensures Step(w, a) == w
  {
  }

  lemma FewOwnSteps(w: World, acts: seq<Act>, t: nat)
    requires HoldsThroughout(w, acts, t)
    ensures OwnSteps(w, acts, t) <= 2
  {
    OwnStepsLower(w, acts, t);
    assert acts[..|acts|] == acts;
    assert HasPermit(PhaseOf(Run(w, acts[..|acts|]), t));
  }

  /** Whatever the other threads do in between, nobody holds a permit for more than two steps of
      its own: the third gives it back, or an earlier one did. */
  lemma PermitsComeBack(w: World, acts: seq<Act>, t: nat)
    requires OwnSteps(w, acts, t) >= 3
    ensures exists i :: 0 <= i <= |acts| && !HasPermit(PhaseOf(Run(w, acts[..i]), t))
  {
    if HoldsThroughout(w, acts, t) { FewOwnSteps(w, acts, t); }
  }
}
