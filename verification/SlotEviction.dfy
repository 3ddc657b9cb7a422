/** A run over 257 hosts that has three permits of one host out (live402/probe.py): a thread looks
    its host up, the cache evicts the host, others get a new semaphore, and the first thread takes
    the old one. With few hosts that cannot happen, so the bound depends on how many there are. */
module SlotEviction {
  import opened Collections
  import opened Slots
  import opened SlotLookups

  /** Hosts with a name, all different. */
  ghost predicate Distinct(hs: seq<string>) {
    && (forall i :: 0 <= i < |hs| ==> hs[i] != "")
    && forall i, j :: 0 <= i < j < |hs| ==> hs[i] != hs[j]
  }

  function Twos(n: nat): (r: seq<nat>)
    ensures |r| == n && forall i :: 0 <= i < n ==> r[i] == MAX_PER_HOST
  {
    seq(n, _ => MAX_PER_HOST)
  }

  /** The cache that knows the hosts from lo up to hi, in this order. */
  function CacheOf(hs: seq<string>, lo: nat, hi: nat): (r: Odict<string, nat>)
    requires lo <= hi <= |hs|
    ensures |r| == hi - lo && forall i :: 0 <= i < |r| ==> r[i] == Item(hs[lo + i], lo + i)
  {
    seq(hi - lo, i requires 0 <= i < hi - lo => Item(hs[lo + i], lo + i))
  }

  /** The oldest host that is still cached when hi have been looked up. */
  function Oldest(hi: nat): nat {
    if hi <= MAX_HOST_SLOT_KEYS then 0 else hi - MAX_HOST_SLOT_KEYS
  }

  /** Thread 0 has looked up the first host; thread 1 has been at the next n hosts and left. */
  function Visited(hs: seq<string>, n: nat): World
    requires n < |hs|
  {
    World(MAX_PROCESS_PROBES - 1, CacheOf(hs, Oldest(n + 1), n + 1), Twos(n + 1), 1,
          map[0 := Found(hs[0], Own(0)), 1 := Outside])
  }

  // ---- lookups ------------------------------------------------------------------------------

  lemma {:induction false} DelLast(d: Odict<string, nat>, k: string, v: nat)
    requires !Has(d, k)
    ensures Del(d + [Item(k, v)], k) == d
  {
    var r := d + [Item(k, v)];
    if d == [] {
      assert r[1..] == [];
    } else {
      HasTail(d, k);
      DelLast(d[1..], k, v);
      assert r[1..] == d[1..] + [Item(k, v)] && r[0] == d[0];
    }
  }

  /** A full cache of idle hosts loses its oldest one. */
  lemma EvictsOldest(hs: seq<string>, lo: nat, hi: nat)
    requires lo <= hi <= |hs| && hi - lo <= MAX_HOST_SLOT_KEYS
    ensures Evicted(CacheOf(hs, lo, hi), Twos(hi))
            == if hi - lo == MAX_HOST_SLOT_KEYS then CacheOf(hs, lo + 1, hi) else CacheOf(hs, lo, hi)
  {
    var c := CacheOf(hs, lo, hi);
    if |c| == MAX_HOST_SLOT_KEYS {
      assert c[0] == Item(hs[lo], lo) && FirstIdle(c, Twos(hi)) == 0;
      assert c[..0] + c[1..] == CacheOf(hs, lo + 1, hi);
    }
  }

  /** Looking up a host that is not cached, in a cache of idle hosts. */
  lemma NewHost(w: World, hs: seq<string>, lo: nat, hi: nat, host: string)
    requires lo <= hi <= |hs| && hi - lo <= MAX_HOST_SLOT_KEYS && host != ""
    requires w.cache == CacheOf(hs, lo, hi) && w.values == Twos(hi)
    requires forall i :: lo <= i < hi ==> hs[i] != host
    ensures var from := if hi - lo == MAX_HOST_SLOT_KEYS then lo + 1 else lo;
            && !Has(CacheOf(hs, from, hi), host)
            && Lookup(w, host)
               == (w.(cache := CacheOf(hs, from, hi) + [Item(host, hi)], values := Twos(hi + 1)), Own(hi))
  {
    hide Evicted;
    EvictsOldest(hs, lo, hi);
    assert !Has(w.cache, host);
    assert Twos(hi) + [MAX_PER_HOST] == Twos(hi + 1);
  }

  /** Looking up the host that is last in the cache. */
  lemma LastHost(w: World, d: Odict<string, nat>, host: string, id: nat)
    requires w.cache == d + [Item(host, id)] && UniqueKeys(d) && !Has(d, host) && host != ""
    ensures Lookup(w, host) == (w, Own(id))
  {
    hide Evicted;
    AppendFacts(d, host, id);
    DelLast(d, host, id);
  }

  lemma CacheKeys(hs: seq<string>, lo: nat, hi: nat)
    requires lo <= hi <= |hs| && Distinct(hs)
    ensures UniqueKeys(CacheOf(hs, lo, hi))
  {
  }

  // ---- the visits ---------------------------------------------------------------------------

  lemma Then(acts: seq<Act>, a: Act)
    ensures Run(START, acts + [a]) == Step(Run(START, acts), a)
  {
    hide Step;
    assert (acts + [a])[..|acts|] == acts;
  }

  lemma AskAndTake(acts: seq<Act>, t: nat, host: string)
    requires PhaseOf(Run(START, acts), t).Outside? && Run(START, acts).global > 0
    ensures var w := Run(START, acts);
            Run(START, acts + [Ask(t, host)] + [TakeGlobal(t)])
            == Move(w.(global := w.global - 1), t, Permitted(host))
  {
    hide Run;
    var a1 := acts + [Ask(t, host)];
    Then(acts, Ask(t, host));
    Then(a1, TakeGlobal(t));
    var w := Run(START, acts);
    assert w.threads[t := Waiting(host)][t := Permitted(host)] == w.threads[t := Permitted(host)];
  }

  lemma LookAndTry(acts: seq<Act>, t: nat, host: string, v: World, id: nat)
    requires PhaseOf(Run(START, acts), t) == Permitted(host) && Lookup(Run(START, acts), host) == (v, Own(id))
    requires id < |v.values| && v.values[id] > 0 && v.threads == Run(START, acts).threads
    ensures Run(START, acts + [Look(t)] + [Try(t)])
            == Move(v.(values := v.values[id := v.values[id] - 1]), t, Probing(host))
  {
    hide Run, Lookup;
    var a1 := acts + [Look(t)];
    Then(acts, Look(t));
    Then(a1, Try(t));
    assert v.threads[t := Found(host, Own(id))][t := Probing(host)] == v.threads[t := Probing(host)];
  }

  lemma ReleaseAndLeave(acts: seq<Act>, t: nat, host: string, id: nat)
    requires PhaseOf(Run(START, acts), t) == Probing(host) && id < |Run(START, acts).values|
    requires Lookup(Run(START, acts), host) == (Run(START, acts), Own(id))
    ensures var w := Run(START, acts);
            Run(START, acts + [LookAgain(t)] + [Free(t)] + [LeaveGlobal(t)])
            == Move(w.(values := w.values[id := w.values[id] + 1], global := w.global + 1), t, Outside)
  {
    hide Run, Lookup;
    var a1 := acts + [LookAgain(t)];
    var a2 := a1 + [Free(t)];
    Then(acts, LookAgain(t));
    Then(a1, Free(t));
    Then(a2, LeaveGlobal(t));
    var threads := Run(START, acts).threads;
    var leaving := threads[t := Releasing(host, Own(id))][t := Leaving];
    assert leaving[t := Outside] == threads[t := Outside];
  }

  /** Thread 0 looks up the first host and thread 1 comes and goes. */
  function Arrival(host: string): seq<Act> {
    [] + [Ask(0, host)] + [TakeGlobal(0)] + [Look(0)] + [Ask(1, host)] + [GiveUp(1)]
  }

  function Visits(hs: seq<string>, n: nat): seq<Act>
    requires n < |hs|
  {
    if n == 0 then Arrival(hs[0])
    else
      Visits(hs, n - 1)
      + [Ask(1, hs[n])] + [TakeGlobal(1)] + [Look(1)] + [Try(1)] + [LookAgain(1)] + [Free(1)] + [LeaveGlobal(1)]
  }

  lemma ArrivalIs(hs: seq<string>)
    requires Distinct(hs) && hs != []
    ensures Run(START, Arrival(hs[0])) == Visited(hs, 0)
  {
    hide Lookup;
    var h := hs[0];
    var a1 := [] + [Ask(0, h)];
    var a2 := a1 + [TakeGlobal(0)];
    var a3 := a2 + [Look(0)];
    var a4 := a3 + [Ask(1, h)];
    Then([], Ask(0, h));
    Then(a1, TakeGlobal(0));
    Then(a2, Look(0));
    Then(a3, Ask(1, h));
    Then(a4, GiveUp(1));
    var w := Run(START, a2);
    assert w == World(9, [], [], 1, map[0 := Permitted(h)]);
    assert CacheOf(hs, 0, 0) == [] && Twos(0) == [];
    NewHost(w, hs, 0, 0, h);
    assert CacheOf(hs, 0, 1) == [] + [Item(h, 0)];
    assert Run(START, a3) == World(9, CacheOf(hs, 0, 1), Twos(1), 1, map[0 := Found(h, Own(0))]);
  }

  /** Thread 1 enters a host and takes its permit. */
  lemma VisitEnters(hs: seq<string>, n: nat, acts: seq<Act>)
    requires Distinct(hs) && n + 1 < |hs| && Run(START, acts) == Visited(hs, n)
    ensures var h := hs[n + 1];
            var threads := map[0 := Found(hs[0], Own(0)), 1 := Probing(h)];
            Run(START, acts + [Ask(1, h)] + [TakeGlobal(1)] + [Look(1)] + [Try(1)])
            == World(8, CacheOf(hs, Oldest(n + 2), n + 2), Twos(n + 2)[n + 1 := 1], 1, threads)
  {
    hide Lookup, Run;
    var h := hs[n + 1];
    AskAndTake(acts, 1, h);
    var a2 := acts + [Ask(1, h)] + [TakeGlobal(1)];
    var lo, from := Oldest(n + 1), Oldest(n + 2);
    var w := World(8, CacheOf(hs, lo, n + 1), Twos(n + 1), 1, map[0 := Found(hs[0], Own(0)), 1 := Permitted(h)]);
    assert Run(START, a2) == w;
    NewHost(w, hs, lo, n + 1, h);
    assert CacheOf(hs, from, n + 1) + [Item(h, n + 1)] == CacheOf(hs, from, n + 2);
    LookAndTry(a2, 1, h, w.(cache := CacheOf(hs, from, n + 2), values := Twos(n + 2)), n + 1);
    assert w.threads[1 := Probing(h)] == map[0 := Found(hs[0], Own(0)), 1 := Probing(h)];
  }

  /** ... and leaves it again. */
  lemma VisitLeaves(hs: seq<string>, n: nat, acts: seq<Act>)
    requires Distinct(hs) && n + 1 < |hs|
    requires Run(START, acts)
             == World(8, CacheOf(hs, Oldest(n + 2), n + 2), Twos(n + 2)[n + 1 := 1], 1,
                      map[0 := Found(hs[0], Own(0)), 1 := Probing(hs[n + 1])])
    ensures Run(START, acts + [LookAgain(1)] + [Free(1)] + [LeaveGlobal(1)]) == Visited(hs, n + 1)
  {
    hide Lookup, Run;
    var h := hs[n + 1];
    var w := Run(START, acts);
    var d := CacheOf(hs, Oldest(n + 2), n + 1);
    CacheKeys(hs, Oldest(n + 2), n + 1);
    assert w.cache == d + [Item(h, n + 1)];
    LastHost(w, d, h, n + 1);
    ReleaseAndLeave(acts, 1, h, n + 1);
    assert Twos(n + 2)[n + 1 := 1][n + 1 := 2] == Twos(n + 2);
    assert w.threads[1 := Outside] == map[0 := Found(hs[0], Own(0)), 1 := Outside];
  }

  lemma {:induction false} VisitsAre(hs: seq<string>, n: nat)
    requires Distinct(hs) && n < |hs|
    ensures Run(START, Visits(hs, n)) == Visited(hs, n)
  {
    hide Run, Visited;
    if n == 0 {
      ArrivalIs(hs);
    } else {
      var acts := Visits(hs, n - 1);
      VisitsAre(hs, n - 1);
      VisitEnters(hs, n - 1, acts);
      VisitLeaves(hs, n - 1, acts + [Ask(1, hs[n])] + [TakeGlobal(1)] + [Look(1)] + [Try(1)]);
    }
  }

  // ---- the third permit ---------------------------------------------------------------------

  /** Thread t takes a permit of the host. */
  function Enter(t: nat, host: string, acts: seq<Act>): seq<Act> {
    acts + [Ask(t, host)] + [TakeGlobal(t)] + [Look(t)] + [Try(t)]
  }

  function Evicting(hs: seq<string>): seq<Act>
    requires |hs| == MAX_HOST_SLOT_KEYS + 1
  {
    Enter(2, hs[0], Enter(1, hs[0], Visits(hs, MAX_HOST_SLOT_KEYS))) + [Try(0)]
  }

  /** The evicted host comes back with a new semaphore, and thread 1 takes one permit of it. */
  lemma FirstEnters(hs: seq<string>)
    requires Distinct(hs) && |hs| == MAX_HOST_SLOT_KEYS + 1
    ensures var n := |hs|;
            Run(START, Enter(1, hs[0], Visits(hs, n - 1)))
            == World(8, CacheOf(hs, 2, n) + [Item(hs[0], n)], Twos(n + 1)[n := 1], 1,
                     map[0 := Found(hs[0], Own(0)), 1 := Probing(hs[0])])
            && UniqueKeys(CacheOf(hs, 2, n)) && !Has(CacheOf(hs, 2, n), hs[0])
  {
    hide Lookup, Visits, Run;
    var n, v := |hs|, hs[0];
    var acts := Visits(hs, n - 1);
    VisitsAre(hs, n - 1);
    AskAndTake(acts, 1, v);
    var w := World(8, CacheOf(hs, 1, n), Twos(n), 1, map[0 := Found(v, Own(0)), 1 := Permitted(v)]);
    assert Run(START, acts + [Ask(1, v)] + [TakeGlobal(1)]) == w;
    NewHost(w, hs, 1, n, v);
    CacheKeys(hs, 2, n);
    LookAndTry(acts + [Ask(1, v)] + [TakeGlobal(1)], 1, v,
               w.(cache := CacheOf(hs, 2, n) + [Item(v, n)], values := Twos(n + 1)), n);
    assert w.threads[1 := Probing(v)] == map[0 := Found(v, Own(0)), 1 := Probing(v)];
  }

  lemma SecondEnters(v: string, d: Odict<string, nat>, n: nat, acts: seq<Act>)
    requires v != "" && UniqueKeys(d) && !Has(d, v)
    requires Run(START, acts) == World(8, d + [Item(v, n)], Twos(n + 1)[n := 1], 1,
                                       map[0 := Found(v, Own(0)), 1 := Probing(v)])
    ensures Run(START, Enter(2, v, acts))
            == World(7, d + [Item(v, n)], Twos(n + 1)[n := 0], 1,
                     map[0 := Found(v, Own(0)), 1 := Probing(v), 2 := Probing(v)])
  {
    hide Lookup, Run;
    AskAndTake(acts, 2, v);
    var w := World(7, d + [Item(v, n)], Twos(n + 1)[n := 1], 1,
                   map[0 := Found(v, Own(0)), 1 := Probing(v), 2 := Permitted(v)]);
    assert Run(START, acts + [Ask(2, v)] + [TakeGlobal(2)]) == w;
    LastHost(w, d, v, n);
    LookAndTry(acts + [Ask(2, v)] + [TakeGlobal(2)], 2, v, w, n);
    assert Twos(n + 1)[n := 1][n := 0] == Twos(n + 1)[n := 0];
    assert w.threads[2 := Probing(v)] == map[0 := Found(v, Own(0)), 1 := Probing(v), 2 := Probing(v)];
  }

  /** Three threads probe one host. */
  lemma ThreeHold(hs: seq<string>)
    requires Distinct(hs) && |hs| == MAX_HOST_SLOT_KEYS + 1
    ensures Holders(Run(START, Evicting(hs)).threads, hs[0]) == {0, 1, 2}
  {
    hide Lookup, Visits, CacheOf;
    var n, v := |hs|, hs[0];
    var acts := Enter(1, v, Visits(hs, n - 1));
    FirstEnters(hs);
    SecondEnters(v, CacheOf(hs, 2, n), n, acts);
    Then(Enter(2, v, acts), Try(0));
    var w := Run(START, Enter(2, v, acts));
    assert w.values[0] == MAX_PER_HOST && CanTake(w, Own(0));
    assert Run(START, Evicting(hs)).threads == map[0 := Probing(v), 1 := Probing(v), 2 := Probing(v)];
  }

  lemma {:induction false} VisitsOver(hosts: set<string>, hs: seq<string>, n: nat)
    requires n < |hs| && forall i :: 0 <= i < |hs| ==> hs[i] in hosts
    ensures Over(hosts, Visits(hs, n))
  {
    if n > 0 { VisitsOver(hosts, hs, n - 1); }
  }

  lemma EnterOver(hosts: set<string>, t: nat, host: string, acts: seq<Act>)
    requires Over(hosts, acts) && host in hosts
    ensures Over(hosts, Enter(t, host, acts))
  {
  }

  lemma {:induction false} Enumerated(hosts: set<string>, n: nat) returns (hs: seq<string>)
    requires n <= |hosts| && "" !in hosts
    ensures |hs| == n && Distinct(hs) && forall i :: 0 <= i < |hs| ==> hs[i] in hosts
  {
    if n == 0 {
      hs := [];
    } else {
      var h :| h in hosts;
      var rest := Enumerated(hosts - {h}, n - 1);
      hs := [h] + rest;
    }
  }

  lemma ManyHostsBreakTheBound(hosts: set<string>) returns (acts: seq<Act>)
    requires "" !in hosts && |hosts| > MAX_HOST_SLOT_KEYS
    ensures Over(hosts, acts) && !HostsBounded(Run(START, acts))
  {
    hide Run, Visits;
    var hs := Enumerated(hosts, MAX_HOST_SLOT_KEYS + 1);
    acts := Evicting(hs);
    ThreeHold(hs);
    assert |Holders(Run(START, acts).threads, hs[0])| == 3;
    VisitsOver(hosts, hs, MAX_HOST_SLOT_KEYS);
    EnterOver(hosts, 1, hs[0], Visits(hs, MAX_HOST_SLOT_KEYS));
    EnterOver(hosts, 2, hs[0], Enter(1, hs[0], Visits(hs, MAX_HOST_SLOT_KEYS)));
  }

  /** With lookup and acquire apart, no run over these hosts has more than two permits of a host out
      exactly when there are at most 256 of them. */
  lemma HostsBoundedIff(hosts: set<string>)
    requires "" !in hosts
    ensures (forall acts :: Over(hosts, acts) ==> HostsBounded(Run(START, acts))) <==> |hosts| <= 256
  {
    hide Run, Over, HostsBounded;
    if |hosts| <= MAX_HOST_SLOT_KEYS {
      forall acts | Over(hosts, acts) ensures HostsBounded(Run(START, acts)) { FewHostsAreBounded(hosts, acts); }
    } else {
      var acts := ManyHostsBreakTheBound(hosts);
    }
  }
}
