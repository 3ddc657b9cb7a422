/** The probe slots (live402/probe.py): a process-wide semaphore and a bounded cache of per-host
    semaphores. First what one lookup, acquire and release do, as functions and as the methods of
    an object; then every run of any number of threads. */
module Slots {
  import opened Collections

  const MAX_PROCESS_PROBES: nat := 10
  const MAX_PER_HOST: nat := 2
  const MAX_HOST_SLOT_KEYS: nat := 256

  /** A per-host semaphore; `id` tells one semaphore object from another. */
  datatype Sem = Sem(id: nat, value: nat)

  type Hosts = Odict<string, Sem>

  datatype Slots = Slots(global: nat, hosts: Hosts, overflow: nat, nextId: nat)

  const FREE := Slots(MAX_PROCESS_PROBES, [], 1, 0)

  /** _host_slot_released */
  predicate Released(s: Sem) {
    s.value >= MAX_PER_HOST
  }

  /** The least recently used host nobody holds, or |d|. */
  function FirstReleased(d: Hosts): (i: nat)
    ensures i <= |d|
    ensures i < |d| ==> Released(d[i].value)
    ensures forall k :: 0 <= k < i ==> !Released(d[k].value)
  {
    if d == [] then 0
    else if Released(d[0].value) then 0
    else
      assert forall k :: 1 <= k < |d| ==> d[k] == d[1..][k - 1];
      1 + FirstReleased(d[1..])
  }

  function Without(d: Hosts, i: nat): (r: Hosts)
    requires i < |d|
    ensures |r| == |d| - 1
  {
    d[..i] + d[i + 1..]
  }

  /** Evict until there is room or every cached host is held. */
  function MakeRoom(d: Hosts): Hosts
    decreases |d|
  {
    if |d| < MAX_HOST_SLOT_KEYS || FirstReleased(d) == |d| then d
    else MakeRoom(Without(d, FirstReleased(d)))
  }

  /** No semaphore of its own can be made for the host: it shares the overflow semaphore. */
  predicate Overflows(d: Hosts, host: string) {
    Get(d, host).None? && |MakeRoom(d)| >= MAX_HOST_SLOT_KEYS
  }

  /** The cache after a lookup; unless it overflows, the host's semaphore is the last one. */
  function Touch(d: Hosts, host: string, id: nat): (r: Hosts)
    ensures !Overflows(d, host) ==> r != []
  {
    var sem := Get(d, host);
    if sem.Some? then Del(d, host) + [Item(host, sem.value)]
    else if Overflows(d, host) then MakeRoom(d)
    else MakeRoom(d) + [Item(host, Sem(id, MAX_PER_HOST))]
  }

  function Last(d: Hosts): Sem
    requires d != []
  {
    d[|d| - 1].value
  }

  function SetLast(d: Hosts, value: nat): Hosts
    requires d != []
  {
    d[|d| - 1 := Item(d[|d| - 1].key, Last(d).(value := value))]
  }

  /** _host_semaphore: a new semaphore takes the next id. */
  function Looked(s: Slots, host: string): (r: Slots)
    ensures !Overflows(s.hosts, host) ==> r.hosts != []
  {
    var isNew := Get(s.hosts, host).None? && !Overflows(s.hosts, host);
    s.(hosts := Touch(s.hosts, host, s.nextId), nextId := if isNew then s.nextId + 1 else s.nextId)
  }

  /** A probe without a host needs no host semaphore. */
  predicate Admits(s: Slots, host: string) {
    host == "" || (if Overflows(s.hosts, host) then s.overflow > 0 else Last(Looked(s, host).hosts).value > 0)
  }

  /** Lookup with a try-acquire. */
  function TryHost(s: Slots, host: string): Slots {
    var l := Looked(s, host);
    if host == "" then s
    else if !Admits(s, host) then l
    else if Overflows(s.hosts, host) then l.(overflow := l.overflow - 1)
    else l.(hosts := SetLast(l.hosts, Last(l.hosts).value - 1))
  }

  /** Lookup with a release. */
  function FreeHost(s: Slots, host: string): Slots {
    var l := Looked(s, host);
    if host == "" then s
    else if Overflows(s.hosts, host) then l.(overflow := l.overflow + 1)
    else l.(hosts := SetLast(l.hosts, Last(l.hosts).value + 1))
  }

  // ---- the slots as an object ---------------------------------------------------------------

  class ProbeSlots {
    var global: nat
    var hosts: Hosts
    var overflow: nat
    var nextId: nat

    function Now(): Slots
      reads this
    {
      Slots(global, hosts, overflow, nextId)
    }

    constructor ()
      ensures Now() == FREE
    {
      global, hosts, overflow, nextId := MAX_PROCESS_PROBES, [], 1, 0;
    }

    /** Evict the first host that nobody holds. */
    method EvictOne() returns (evicted: bool)
      modifies this`hosts
      ensures evicted <==> FirstReleased(old(hosts)) < |old(hosts)|
      ensures hosts == if evicted then Without(old(hosts), FirstReleased(old(hosts))) else old(hosts)
    {
      var i := 0;
      while i < |hosts|
        invariant 0 <= i <= |hosts| && hosts == old(hosts)
        invariant forall k :: 0 <= k < i ==> !Released(hosts[k].value)
      {
        if Released(hosts[i].value) {
          assert FirstReleased(hosts) == i;
          hosts := hosts[..i] + hosts[i + 1..];
          return true;
        }
        i := i + 1;
      }
      return false;
    }

    /** Whether the host's own semaphore was found or made; it is then the last one. */
    method HostSemaphore(host: string) returns (found: bool)
      modifies this`hosts, this`nextId
      ensures Now() == Looked(old(Now()), host)
      ensures found <==> !Overflows(old(hosts), host)
    {
      var sem := Get(hosts, host);
      if sem.Some? {
        hosts := Del(hosts, host) + [Item(host, sem.value)];
        return true;
      }
      ghost var before := hosts;
      var evicted := true;
      while |hosts| >= MAX_HOST_SLOT_KEYS && evicted
        invariant MakeRoom(hosts) == MakeRoom(before)
        invariant Now() == old(Now()).(hosts := hosts)
        invariant !evicted ==> FirstReleased(hosts) == |hosts|
        decreases |hosts|, evicted
      {
        evicted := EvictOne();
      }
      assert hosts == MakeRoom(before);
      if |hosts| >= MAX_HOST_SLOT_KEYS { return false; }
      hosts := hosts + [Item(host, Sem(nextId, MAX_PER_HOST))];
      nextId := nextId + 1;
      return true;
    }

    /** Take a process-wide permit without blocking. */
    method TryGlobal() returns (ok: bool)
      modifies this`global
      ensures ok <==> old(global) > 0
      ensures global == if ok then old(global) - 1 else old(global)
    {
      ok := global > 0;
      if ok { global := global - 1; }
    }

    /** Lookup and try-acquire, holding a process-wide permit; a busy host gives the permit back. */
    method EnterHost(host: string) returns (ok: bool)
      modifies this
      ensures ok <==> Admits(old(Now()), host)
      ensures var tried := TryHost(old(Now()), host);
              Now() == if ok then tried else tried.(global := tried.global + 1)
    {
      if host == "" { return true; }
      var found := HostSemaphore(host);
      if found {
        ok := Last(hosts).value > 0;
        if ok { hosts := SetLast(hosts, Last(hosts).value - 1); }
      } else {
        ok := overflow > 0;
        if ok { overflow := overflow - 1; }
      }
      if !ok { global := global + 1; }
    }

    /** One round of acquire_probe_slot that does not wait. */
    method TryAcquire(host: string) returns (ok: bool)
      modifies this
      ensures ok <==> old(global) > 0 && Admits(old(Now()), host)
      ensures Now() == if old(global) == 0 then old(Now())
                       else
                         var tried := TryHost(old(Now()), host);
                         if ok then tried.(global := tried.global - 1) else tried
    {
      ok := TryGlobal();
      if ok { ok := EnterHost(host); }
    }

    method ReleaseProbeSlot(host: string)
      modifies this
      ensures var freed := FreeHost(old(Now()), host); Now() == freed.(global := freed.global + 1)
    {
      if host != "" {
        var found := HostSemaphore(host);
        if found { hosts := SetLast(hosts, Last(hosts).value + 1); }
        else { overflow := overflow + 1; }
      }
      global := global + 1;
    }
  }

  // ---- what a lookup does to the cache ------------------------------------------------------

  /** A cached host keeps its semaphore and becomes the most recently used one. With room, a new semaphore of two
      permits joins at that end. In a full cache it takes the place of the least recently used host that nobody holds;
      when every host is held the cache stays as it is and the host shares the overflow semaphore. */
  lemma LookupIs(d: Hosts, host: string, id: nat)
    requires |d| <= 256
    ensures Get(d, host).Some? ==>
              !Overflows(d, host) && Touch(d, host, id) == Del(d, host) + [Item(host, Get(d, host).value)]
    ensures Get(d, host).None? && |d| < 256 ==>
              !Overflows(d, host) && Touch(d, host, id) == d + [Item(host, Sem(id, 2))]
    ensures forall i :: Get(d, host).None? && |d| == 256 && 0 <= i < 256 && d[i].value.value >= 2
                        && (forall k :: 0 <= k < i ==> d[k].value.value < 2) ==>
              !Overflows(d, host) && Touch(d, host, id) == d[..i] + d[i + 1..] + [Item(host, Sem(id, 2))]
    ensures Get(d, host).None? && |d| == 256 && (forall k :: 0 <= k < 256 ==> d[k].value.value < 2) ==>
              Overflows(d, host) && Touch(d, host, id) == d
  {
    hide Get, Del;
    if |d| == 256 {
      var f := FirstReleased(d);
      if f < |d| { assert MakeRoom(d) == MakeRoom(Without(d, f)) == Without(d, f); }
      forall i | 0 <= i < 256 && d[i].value.value >= 2 && (forall k :: 0 <= k < i ==> d[k].value.value < 2)
        ensures f == i
      {
        FirstIs(d, i);
      }
    }
  }

  lemma FirstIs(d: Hosts, i: nat)
    requires i < |d|
    ensures d[i].value.value >= 2 && (forall k :: 0 <= k < i ==> d[k].value.value < 2) ==> FirstReleased(d) == i
  {
    hide FirstReleased;
  }
}
