/** Any number of requests, threads and processes over one durable ledger
    (handle_route of live402/route.py over live402/replay.py).
    A run is any sequence of steps: a step that is not possible changes nothing. */
module ReplayProtocol {
  import opened Collections
  import opened Json
  import opened Outcomes
  import opened PaidRoute
  import opened Replay

  type Pid = nat
  type Tid = nat
  type Eid = nat

  /** The parts of the system that are arbitrary but fixed. */
  datatype System = System(codec: Codec, hash: Fingerprint -> Hash)

  datatype Job = Job(pid: Pid, fp: Fingerprint, legacy: Option<Fingerprint>, scope: Scope, request: Request,
                     world: World)

  /** Where an answer came from. */
  datatype How = Owner | FromCache(source: Source) | FromWait | FromRefusal

  datatype Thread =
    | Starting(job: Job)
    | Reserving(job: Job)
    | Running(job: Job, eid: Eid, done: nat)
    | Waiting(job: Job, eid: Eid)
    | Answered(job: Job, how: How, outcome: Outcome)
    | Gone

  /** One _Entry: the authorization it is for, whether it is set, and the published result. */
  datatype EntryState = EntryState(fp: Fingerprint, done: bool, result: Option<Outcome>)

  datatype State = State(
    rams: map<Pid, Ram<Eid>>, clocks: map<Pid, real>, locks: map<Pid, Tid>,
    threads: map<Tid, Thread>, entries: seq<EntryState>, ledger: Ledger,
    /** the settle calls made, in order, by the authorization they were made for */
    calls: seq<Fingerprint>,
    /** history: the sanitized outcome an authorization was finished with, 400s apart */
    published: map<Fingerprint, Outcome>)

  function Init(ledger: Ledger): State {
    State(map[], map[], map[], map[], [], ledger, [], map[])
  }

  datatype Step =
    | Boot(pid: Pid)
    | Tick(pid: Pid, elapsed: real)
    | Arrive(tid: Tid, job: Job)
    | CheckStep(tid: Tid, io: Io)
    | ReserveStep(tid: Tid, io: Io)
    | EffectStep(tid: Tid)
    | FinishStep(tid: Tid, write: Write)
    | RaiseStep(tid: Tid, write: Write)
    | AbandonStep(tid: Tid, write: Write)
    | WakeStep(tid: Tid)
    | DieStep(tid: Tid)

  predicate Free(s: State, pid: Pid) {
    pid in s.rams && pid in s.clocks && pid !in s.locks
  }

  predicate OnPid(t: Thread, pid: Pid) {
    !t.Gone? && t.job.pid == pid
  }

  /** A process starts, or crashes and starts again: its maps, locks and threads are lost. */
  function BootOf(s: State, pid: Pid): State {
    s.(rams := s.rams[pid := Ram(map[], [])], clocks := s.clocks[pid := 0.0], locks := s.locks - {pid},
       threads := map t | t in s.threads :: if OnPid(s.threads[t], pid) then Gone else s.threads[t])
  }

  function Reply(s: State, tid: Tid, job: Job, how: How, o: Outcome): State {
    s.(threads := s.threads[tid := Answered(job, how, o)])
  }

  function Refusal(job: Job): Outcome {
    UnknownOutcome(job.request.rail, JNull)
  }

  /** What begin() does with its verdict; to proceed it keeps the process lock. */
  function Follow(s: State, tid: Tid, job: Job, verdict: Verdict<Eid>): State {
    match verdict
    case Replayed(source, o) => Reply(s, tid, job, FromCache(source), o)
    case Wait(eid) => s.(threads := s.threads[tid := Thread.Waiting(job, eid)])
    case Refuse => Reply(s, tid, job, FromRefusal, Refusal(job))
    case Proceed => s.(threads := s.threads[tid := Reserving(job)], locks := s.locks[job.pid := tid])
  }

  /** The maps of a process after pruning. */
  function PrunedRam(s: State, pid: Pid): Ram<Eid>
    requires pid in s.rams && pid in s.clocks
  {
    s.rams[pid].(completed := Pruned(s.rams[pid].completed, s.clocks[pid]))
  }

  /** The locked part of begin() up to the reservation. */
  function CheckOf(sys: System, s: State, tid: Tid, job: Job, io: Io): State
    requires Free(s, job.pid)
  {
    var ram := PrunedRam(s, job.pid);
    Follow(s.(rams := s.rams[job.pid := ram]), tid, job,
           Check(sys.codec, sys.hash, ram, s.ledger, io, job.fp, job.legacy, job.scope, s.clocks[job.pid]))
  }

  /** The reservation, still under the process lock; other processes may have written meanwhile. */
  function ReserveOf(sys: System, s: State, tid: Tid, job: Job, io: Io): State
    requires job.pid in s.rams
  {
    var (ledger, run) := Reserve(s.ledger, sys.hash(job.fp), job.scope, io);
    var s1 := s.(ledger := ledger, locks := s.locks - {job.pid});
    if !run then Reply(s1, tid, job, FromRefusal, Refusal(job))
    else
      var eid := |s.entries|;
      var ram := s.rams[job.pid];
      s1.(threads := s1.threads[tid := Running(job, eid, 0)],
          entries := s.entries + [EntryState(job.fp, false, None)],
          rams := s.rams[job.pid := ram.(inflight := ram.inflight[job.fp := Slot(eid, job.scope)])])
  }

  function EffectOf(sys: System, s: State, tid: Tid, t: Thread): State
    requires t.Running?
    requires t.done < |Effects(sys.codec, t.job.request, t.job.world)|
  {
    var calls := if Effects(sys.codec, t.job.request, t.job.world)[t.done] == SettleCall then s.calls + [t.job.fp]
                 else s.calls;
    s.(threads := s.threads[tid := t.(done := t.done + 1)], calls := calls)
  }

  /** finish() with the caller's own answer. */
  function FinishOf(sys: System, s: State, tid: Tid, job: Job, o: Outcome, write: Write): State
    requires Free(s, job.pid)
  {
    var safe := Sanitize(sys.codec, o);
    var cache := o.code != 400;
    var ram := s.rams[job.pid];
    var entries :=
      if job.fp in ram.inflight && ram.inflight[job.fp].entry < |s.entries| then
        s.entries[ram.inflight[job.fp].entry :=
                    s.entries[ram.inflight[job.fp].entry].(done := true, result := Some(safe))]
      else s.entries;
    Reply(s, tid, job, Owner, o).(
      rams := s.rams[job.pid := FinishRam(ram, job.fp, safe, cache, s.clocks[job.pid])],
      entries := entries,
      ledger := FinishRow(sys.codec, s.ledger, sys.hash(job.fp), safe, cache, write),
      published := if cache then s.published[job.fp := safe] else s.published)
  }

  function AbandonOf(sys: System, s: State, tid: Tid, job: Job, write: Write): State
    requires Free(s, job.pid)
  {
    var ram := s.rams[job.pid];
    var entries :=
      if job.fp in ram.inflight && ram.inflight[job.fp].entry < |s.entries| then
        s.entries[ram.inflight[job.fp].entry := s.entries[ram.inflight[job.fp].entry].(done := true)]
      else s.entries;
    s.(threads := s.threads[tid := Gone], entries := entries,
       rams := s.rams[job.pid := ram.(inflight := ram.inflight - {job.fp})],
       ledger := MarkUnknown(s.ledger, sys.hash(job.fp), write))
  }

  /** A waiter returns: with the published result, or refused when there is none by its deadline. */
  function WakeOf(s: State, tid: Tid, job: Job, eid: Eid): State
    requires eid < |s.entries|
  {
    match s.entries[eid].result
    case Some(o) => Reply(s, tid, job, FromWait, o)
    case None => Reply(s, tid, job, FromRefusal, Refusal(job))
  }

  function Apply(sys: System, s: State, step: Step): State {
    match step
    case Boot(pid) => BootOf(s, pid)
    case Tick(pid, dt) =>
      if pid in s.clocks && dt >= 0.0 then s.(clocks := s.clocks[pid := s.clocks[pid] + dt]) else s
    case Arrive(tid, job) =>
      if tid !in s.threads && job.pid in s.rams && Supported(job.request.rail)
        then s.(threads := s.threads[tid := Starting(job)]) else s
    case CheckStep(tid, io) =>
      if tid in s.threads && s.threads[tid].Starting? && Free(s, s.threads[tid].job.pid)
        then CheckOf(sys, s, tid, s.threads[tid].job, io) else s
    case ReserveStep(tid, io) =>
      if tid in s.threads && s.threads[tid].Reserving? && s.threads[tid].job.pid in s.rams
        then ReserveOf(sys, s, tid, s.threads[tid].job, io) else s
    case EffectStep(tid) =>
      if tid in s.threads && s.threads[tid].Running?
         && s.threads[tid].done < |Effects(sys.codec, s.threads[tid].job.request, s.threads[tid].job.world)|
        then EffectOf(sys, s, tid, s.threads[tid]) else s
    case FinishStep(tid, write) =>
      if tid in s.threads && s.threads[tid].Running? && Free(s, s.threads[tid].job.pid)
         && s.threads[tid].done == |Effects(sys.codec, s.threads[tid].job.request, s.threads[tid].job.world)|
        then FinishOf(sys, s, tid, s.threads[tid].job,
                      Result(sys.codec, s.threads[tid].job.request, s.threads[tid].job.world), write)
        else s
    case RaiseStep(tid, write) =>
      if tid in s.threads && s.threads[tid].Running? && Free(s, s.threads[tid].job.pid)
        then FinishOf(sys, s, tid, s.threads[tid].job, Refusal(s.threads[tid].job), write) else s
    case AbandonStep(tid, write) =>
      if tid in s.threads && s.threads[tid].Running? && Free(s, s.threads[tid].job.pid)
        then AbandonOf(sys, s, tid, s.threads[tid].job, write) else s
    case WakeStep(tid) =>
      if tid in s.threads && s.threads[tid].Waiting? && s.threads[tid].eid < |s.entries|
        then WakeOf(s, tid, s.threads[tid].job, s.threads[tid].eid) else s
    case DieStep(tid) =>
      if tid in s.threads && !s.threads[tid].Gone? then
        s.(threads := s.threads[tid := Gone],
           locks := if s.threads[tid].Reserving? then s.locks - {s.threads[tid].job.pid} else s.locks)
      else s
  }

  function Exec(sys: System, s: State, steps: seq<Step>): State
    decreases |steps|
  {
    if steps == [] then s else Apply(sys, Exec(sys, s, steps[..|steps| - 1]), steps[|steps| - 1])
  }

  // ---- safety: at most one settle call per authorization -----------------------------------

  function HashOf(sys: System, t: Thread): Hash
    requires !t.Gone?
  {
    sys.hash(t.job.fp)
  }

  predicate CalledHash(sys: System, s: State, h: Hash) {
    exists i :: 0 <= i < |s.calls| && sys.hash(s.calls[i]) == h
  }

  /** The settle call is the third effect, wherever there is one. */
  predicate PastSettle(t: Thread)
    requires t.Running?
  {
    t.done > 2
  }

  ghost predicate RunningOk(sys: System, s: State, t: Thread)
    requires t.Running?
  {
    && HashOf(sys, t) in s.ledger
    && t.done <= |Effects(sys.codec, t.job.request, t.job.world)|
    && (CalledHash(sys, s, HashOf(sys, t)) ==> PastSettle(t))
  }

  ghost predicate Safe(sys: System, s: State) {
    && (forall i :: 0 <= i < |s.calls| ==> sys.hash(s.calls[i]) in s.ledger)
    && (forall i, j :: 0 <= i < j < |s.calls| ==> sys.hash(s.calls[i]) != sys.hash(s.calls[j]))
    && (forall t :: t in s.threads && s.threads[t].Running? ==> RunningOk(sys, s, s.threads[t]))
    && (forall t, u :: t in s.threads && u in s.threads && t != u && s.threads[t].Running? && s.threads[u].Running? ==>
          HashOf(sys, s.threads[t]) != HashOf(sys, s.threads[u]))
  }

  lemma EffectsShape(codec: Codec, req: Request, w: World, k: nat)
    requires k < |Effects(codec, req, w)|
    ensures Effects(codec, req, w)[k] == SettleCall <==> k == 2
  {
    EffectsAreOrdered(ProgressOf(codec, req, w));
  }

  /** Steps that make no settle call, remove no row and set no thread running keep safety. */
  lemma QuietStepSafe(sys: System, s: State, s': State)
    requires Safe(sys, s)
    requires s'.calls == s.calls
    requires forall h :: h in s.ledger ==> h in s'.ledger
    requires forall t :: t in s'.threads && s'.threads[t].Running? ==> t in s.threads && s'.threads[t] == s.threads[t]
    ensures Safe(sys, s')
  {
    forall t | t in s'.threads && s'.threads[t].Running? ensures RunningOk(sys, s', s'.threads[t]) {
      assert RunningOk(sys, s, s.threads[t]);
    }
  }

  lemma ReserveSafe(sys: System, s: State, tid: Tid, job: Job, io: Io)
    requires Safe(sys, s) && job.pid in s.rams
    requires tid in s.threads && s.threads[tid] == Reserving(job)
    ensures Safe(sys, ReserveOf(sys, s, tid, job, io))
  {
    hide Refusal, Effects;
    var s' := ReserveOf(sys, s, tid, job, io);
    if !Reserve(s.ledger, sys.hash(job.fp), job.scope, io).1 {
      QuietStepSafe(sys, s, s');
    } else {
      assert sys.hash(job.fp) !in s.ledger && s'.threads[tid] == Running(job, |s.entries|, 0);
      assert !CalledHash(sys, s', sys.hash(job.fp));
      forall t | t in s'.threads && s'.threads[t].Running? ensures RunningOk(sys, s', s'.threads[t]) {
        if t != tid { assert RunningOk(sys, s, s.threads[t]); }
      }
      forall t | t in s.threads && s.threads[t].Running? ensures HashOf(sys, s.threads[t]) != sys.hash(job.fp) {
        assert RunningOk(sys, s, s.threads[t]);
      }
    }
  }

  lemma EffectSafe(sys: System, s: State, tid: Tid, t: Thread)
    requires Safe(sys, s)
    requires tid in s.threads && s.threads[tid] == t && t.Running?
    requires t.done < |Effects(sys.codec, t.job.request, t.job.world)|
    ensures Safe(sys, EffectOf(sys, s, tid, t))
  {
    hide Effects;
    var s' := EffectOf(sys, s, tid, t);
    EffectsShape(sys.codec, t.job.request, t.job.world, t.done);
    assert RunningOk(sys, s, t);
    forall u | u in s'.threads && s'.threads[u].Running? ensures RunningOk(sys, s', s'.threads[u]) {
      assert RunningOk(sys, s, s.threads[u]);
      var h := HashOf(sys, s'.threads[u]);
      if CalledHash(sys, s', h) && !CalledHash(sys, s, h) {
        var i :| 0 <= i < |s'.calls| && sys.hash(s'.calls[i]) == h;
        assert i == |s.calls|;
      }
    }
  }

  lemma FinishSafe(sys: System, s: State, tid: Tid, job: Job, o: Outcome, write: Write)
    requires Safe(sys, s) && Free(s, job.pid)
    requires tid in s.threads && s.threads[tid].Running? && s.threads[tid].job == job
    requires o.code == 400 ==> !CalledHash(sys, s, sys.hash(job.fp))
    ensures Safe(sys, FinishOf(sys, s, tid, job, o, write))
  {
    hide Sanitize, FinishRam, Encode, StateOf;
    var s' := FinishOf(sys, s, tid, job, o, write);
    var h := sys.hash(job.fp);
    assert forall g :: g in s.ledger && (g != h || o.code != 400) ==> g in s'.ledger;
    forall t | t in s'.threads && s'.threads[t].Running? ensures RunningOk(sys, s', s'.threads[t]) {
      assert t != tid && RunningOk(sys, s, s.threads[t]);
    }
  }

  /** A finished execution answers 400 only if its settle call was never reached. */
  lemma FinishedBadRequest(sys: System, s: State, t: Thread)
    requires t.Running? && RunningOk(sys, s, t)
    requires t.done == |Effects(sys.codec, t.job.request, t.job.world)|
    requires Result(sys.codec, t.job.request, t.job.world).code == 400
    ensures !CalledHash(sys, s, HashOf(sys, t))
  {
    BadRequestsNeverSettle(sys.codec, t.job.request, t.job.world);
    var e := Effects(sys.codec, t.job.request, t.job.world);
    if PastSettle(t) { EffectsShape(sys.codec, t.job.request, t.job.world, 2); }
  }

  lemma FollowChanges(s: State, tid: Tid, job: Job, verdict: Verdict<Eid>)
    ensures var s' := Follow(s, tid, job, verdict);
            && s'.calls == s.calls && s'.ledger == s.ledger && s'.rams == s.rams && s'.entries == s.entries
            && s'.published == s.published && tid in s'.threads && s'.threads == s.threads[tid := s'.threads[tid]]
            && match verdict
               case Replayed(source, o) => s'.threads[tid] == Answered(job, FromCache(source), o)
               case Wait(eid) => s'.threads[tid] == Thread.Waiting(job, eid)
               case Refuse => s'.threads[tid] == Answered(job, FromRefusal, Refusal(job))
               case Proceed => s'.threads[tid] == Reserving(job)
  {
    hide Refusal;
  }

  /** What the checks of begin() change: the asking thread, and the process's kept outcomes. */
  lemma CheckChanges(sys: System, s: State, tid: Tid, job: Job, io: Io)
    requires Free(s, job.pid)
    ensures var s' := CheckOf(sys, s, tid, job, io);
            && s'.calls == s.calls && s'.ledger == s.ledger && s'.entries == s.entries && s'.published == s.published
            && s'.rams == s.rams[job.pid := PrunedRam(s, job.pid)]
            && tid in s'.threads && s'.threads == s.threads[tid := s'.threads[tid]]
            && !s'.threads[tid].Running? && !s'.threads[tid].Gone? && s'.threads[tid].job == job
  {
    hide Check, PrunedRam, Refusal, Follow;
    var ram := PrunedRam(s, job.pid);
    FollowChanges(s.(rams := s.rams[job.pid := ram]), tid, job,
                  Check(sys.codec, sys.hash, ram, s.ledger, io, job.fp, job.legacy, job.scope, s.clocks[job.pid]));
  }

  lemma CheckSafe(sys: System, s: State, tid: Tid, job: Job, io: Io)
    requires Safe(sys, s) && Free(s, job.pid)
    ensures Safe(sys, CheckOf(sys, s, tid, job, io))
  {
    hide CheckOf, PrunedRam, Effects, Safe;
    CheckChanges(sys, s, tid, job, io);
    QuietStepSafe(sys, s, CheckOf(sys, s, tid, job, io));
  }

  lemma AbandonSafe(sys: System, s: State, tid: Tid, job: Job, write: Write)
    requires Safe(sys, s) && Free(s, job.pid)
    ensures Safe(sys, AbandonOf(sys, s, tid, job, write))
  {
    hide Effects, Safe;
    QuietStepSafe(sys, s, AbandonOf(sys, s, tid, job, write));
  }

  lemma ReplyChanges(s: State, tid: Tid, job: Job, how: How, o: Outcome)
    ensures var s' := Reply(s, tid, job, how, o);
            && s'.calls == s.calls && s'.ledger == s.ledger && tid in s'.threads
            && s'.threads == s.threads[tid := s'.threads[tid]] && s'.threads[tid] == Answered(job, how, o)
  {
  }

  lemma WakeChanges(s: State, tid: Tid, job: Job, eid: Eid)
    requires eid < |s.entries|
    ensures var s' := WakeOf(s, tid, job, eid);
            && s'.calls == s.calls && s'.ledger == s.ledger && tid in s'.threads
            && s'.threads == s.threads[tid := s'.threads[tid]] && s'.threads[tid].Answered?
            && s'.threads[tid].job == job
  {
    hide Refusal, Reply;
    match s.entries[eid].result
    case Some(o) => ReplyChanges(s, tid, job, FromWait, o);
    case None => ReplyChanges(s, tid, job, FromRefusal, Refusal(job));
  }

  lemma WakeSafe(sys: System, s: State, tid: Tid, job: Job, eid: Eid)
    requires Safe(sys, s) && eid < |s.entries|
    ensures Safe(sys, WakeOf(s, tid, job, eid))
  {
    hide Effects, Safe, WakeOf;
    WakeChanges(s, tid, job, eid);
    QuietStepSafe(sys, s, WakeOf(s, tid, job, eid));
  }

  lemma BootSafe(sys: System, s: State, pid: Pid)
    requires Safe(sys, s)
    ensures Safe(sys, BootOf(s, pid))
  {
    hide Effects, Safe;
    QuietStepSafe(sys, s, BootOf(s, pid));
  }

  /** Every step keeps safety. */
  lemma StepSafe(sys: System, s: State, step: Step)
    requires Safe(sys, s)
    ensures Safe(sys, Apply(sys, s, step))
  {
    hide Effects, Result, Refusal, FinishOf, ReserveOf, EffectOf, CheckOf, AbandonOf, WakeOf, BootOf, Safe, RunningOk;
    var s' := Apply(sys, s, step);
    match step
    case Boot(pid) => BootSafe(sys, s, pid);
    case CheckStep(tid, io) => if s' != s { CheckSafe(sys, s, tid, s.threads[tid].job, io); }
    case ReserveStep(tid, io) => if s' != s { ReserveSafe(sys, s, tid, s.threads[tid].job, io); }
    case EffectStep(tid) => if s' != s { EffectSafe(sys, s, tid, s.threads[tid]); }
    case FinishStep(tid, write) => if s' != s { FinishStepSafe(sys, s, tid, write); }
    case RaiseStep(tid, write) =>
      if s' != s {
        RefusalCode(s.threads[tid].job);
        FinishSafe(sys, s, tid, s.threads[tid].job, Refusal(s.threads[tid].job), write);
      }
    case AbandonStep(tid, write) => if s' != s { AbandonSafe(sys, s, tid, s.threads[tid].job, write); }
    case WakeStep(tid) => if s' != s { WakeSafe(sys, s, tid, s.threads[tid].job, s.threads[tid].eid); }
    case _ => QuietStepSafe(sys, s, s');
  }

  lemma FinishStepSafe(sys: System, s: State, tid: Tid, write: Write)
    requires Safe(sys, s)
    requires tid in s.threads && s.threads[tid].Running? && Free(s, s.threads[tid].job.pid)
    requires s.threads[tid].done == |Effects(sys.codec, s.threads[tid].job.request, s.threads[tid].job.world)|
    ensures var job := s.threads[tid].job;
            Safe(sys, FinishOf(sys, s, tid, job, Result(sys.codec, job.request, job.world), write))
  {
    hide Effects, Result, FinishOf;
    var t := s.threads[tid];
    assert RunningOk(sys, s, t);
    var o := Result(sys.codec, t.job.request, t.job.world);
    if o.code == 400 { FinishedBadRequest(sys, s, t); }
    FinishSafe(sys, s, tid, t.job, o, write);
  }

  lemma RefusalCode(job: Job)
    ensures Refusal(job).code == 503
  {
  }

  lemma {:induction false} RunsAreSafe(sys: System, ledger: Ledger, steps: seq<Step>)
    ensures Safe(sys, Exec(sys, Init(ledger), steps))
    decreases |steps|
  {
    if steps != [] {
      var k := |steps| - 1;
      RunsAreSafe(sys, ledger, steps[..k]);
      StepSafe(sys, Exec(sys, Init(ledger), steps[..k]), steps[k]);
    }
  }

  function CallsFor(calls: seq<Fingerprint>, fp: Fingerprint): nat {
    multiset(calls)[fp]
  }

  lemma {:induction false} DistinctCalls(calls: seq<Fingerprint>, fp: Fingerprint)
    requires forall i, j :: 0 <= i < j < |calls| ==> calls[i] != calls[j]
    ensures CallsFor(calls, fp) <= 1
  {
    if calls != [] {
      DistinctCalls(calls[1..], fp);
      assert calls == [calls[0]] + calls[1..];
      assert forall j :: 1 <= j < |calls| ==> calls[1..][j - 1] == calls[j] != calls[0];
      assert calls[0] !in calls[1..];
    }
  }

  /** The guarantee: whatever the ledger holds at the start, and in every run, the facilitator is
      asked to settle one economic fingerprint at most once. No property of the hash is needed. */
  lemma SettledAtMostOnce(sys: System, ledger: Ledger, steps: seq<Step>, fp: Fingerprint)
    ensures CallsFor(Exec(sys, Init(ledger), steps).calls, fp) <= 1
  {
    RunsAreSafe(sys, ledger, steps);
    DistinctCalls(Exec(sys, Init(ledger), steps).calls, fp);
  }

  /** A row nobody runs for: it stays, and no settle call is made under its hash. */
  ghost predicate Closed(sys: System, s: State, h: Hash) {
    && h in s.ledger && !CalledHash(sys, s, h)
    && (forall t :: t in s.threads && s.threads[t].Running? ==> HashOf(sys, s.threads[t]) != h)
  }

  lemma SameCalls(sys: System, a: State, b: State, h: Hash)
    ensures a.calls == b.calls ==> CalledHash(sys, a, h) == CalledHash(sys, b, h)
  {
  }

  lemma BootKeepsClosed(sys: System, s: State, h: Hash)
    requires Closed(sys, s, h)
    ensures forall pid :: Closed(sys, BootOf(s, pid), h)
  {
  }

  lemma CheckKeepsClosed(sys: System, s: State, tid: Tid, job: Job, io: Io, h: Hash)
    requires Closed(sys, s, h) && Free(s, job.pid)
    ensures Closed(sys, CheckOf(sys, s, tid, job, io), h)
  {
    hide CheckOf, PrunedRam;
    CheckChanges(sys, s, tid, job, io);
  }

  lemma ReserveKeepsClosed(sys: System, s: State, tid: Tid, job: Job, io: Io, h: Hash)
    requires Closed(sys, s, h) && job.pid in s.rams
    ensures Closed(sys, ReserveOf(sys, s, tid, job, io), h)
  {
    hide Refusal;
  }

  lemma EffectKeepsClosed(sys: System, s: State, tid: Tid, h: Hash)
    requires Closed(sys, s, h) && tid in s.threads && s.threads[tid].Running?
    requires s.threads[tid].done < |Effects(sys.codec, s.threads[tid].job.request, s.threads[tid].job.world)|
    ensures Closed(sys, EffectOf(sys, s, tid, s.threads[tid]), h)
  {
    hide Effects;
    var s' := EffectOf(sys, s, tid, s.threads[tid]);
    assert forall i :: 0 <= i < |s'.calls| ==>
      s'.calls[i] == if i < |s.calls| then s.calls[i] else s.threads[tid].job.fp;
  }

  lemma FinishKeepsClosed(sys: System, s: State, tid: Tid, o: Outcome, write: Write, h: Hash)
    requires Closed(sys, s, h) && tid in s.threads && s.threads[tid].Running? && Free(s, s.threads[tid].job.pid)
    ensures Closed(sys, FinishOf(sys, s, tid, s.threads[tid].job, o, write), h)
  {
    hide FinishRam, Sanitize, Encode, StateOf;
  }

  lemma AbandonKeepsClosed(sys: System, s: State, tid: Tid, write: Write, h: Hash)
    requires Closed(sys, s, h) && tid in s.threads && s.threads[tid].Running? && Free(s, s.threads[tid].job.pid)
    ensures Closed(sys, AbandonOf(sys, s, tid, s.threads[tid].job, write), h)
  {
  }

  lemma WakeKeepsClosed(sys: System, s: State, tid: Tid, h: Hash)
    requires Closed(sys, s, h) && tid in s.threads && s.threads[tid].Waiting? && s.threads[tid].eid < |s.entries|
    ensures Closed(sys, WakeOf(s, tid, s.threads[tid].job, s.threads[tid].eid), h)
  {
    hide WakeOf;
    WakeChanges(s, tid, s.threads[tid].job, s.threads[tid].eid);
  }

  lemma StepKeepsClosed(sys: System, s: State, step: Step, h: Hash)
    requires Closed(sys, s, h)
    ensures Closed(sys, Apply(sys, s, step), h)
  {
    hide Effects, Result, Refusal, CheckOf, ReserveOf, EffectOf, FinishOf, AbandonOf, WakeOf, BootOf, CalledHash;
    BootKeepsClosed(sys, s, h);
    match step
    case CheckStep(tid, io) =>
      if tid in s.threads && s.threads[tid].Starting? && Free(s, s.threads[tid].job.pid) {
        CheckKeepsClosed(sys, s, tid, s.threads[tid].job, io, h);
      }
    case ReserveStep(tid, io) =>
      if tid in s.threads && s.threads[tid].Reserving? && s.threads[tid].job.pid in s.rams {
        ReserveKeepsClosed(sys, s, tid, s.threads[tid].job, io, h);
      }
    case EffectStep(tid) =>
      if tid in s.threads && s.threads[tid].Running?
         && s.threads[tid].done < |Effects(sys.codec, s.threads[tid].job.request, s.threads[tid].job.world)| {
        EffectKeepsClosed(sys, s, tid, h);
      }
    case FinishStep(tid, write) =>
      if tid in s.threads && s.threads[tid].Running? && Free(s, s.threads[tid].job.pid) {
        FinishKeepsClosed(sys, s, tid, Result(sys.codec, s.threads[tid].job.request, s.threads[tid].job.world), write,
                          h);
      }
    case RaiseStep(tid, write) =>
      if tid in s.threads && s.threads[tid].Running? && Free(s, s.threads[tid].job.pid) {
        FinishKeepsClosed(sys, s, tid, Refusal(s.threads[tid].job), write, h);
      }
    case AbandonStep(tid, write) =>
      if tid in s.threads && s.threads[tid].Running? && Free(s, s.threads[tid].job.pid) {
        AbandonKeepsClosed(sys, s, tid, write, h);
      }
    case WakeStep(tid) =>
      if tid in s.threads && s.threads[tid].Waiting? && s.threads[tid].eid < |s.entries| {
        WakeKeepsClosed(sys, s, tid, h);
      }
    case _ => SameCalls(sys, s, Apply(sys, s, step), h);
  }

  lemma {:induction false} RunKeepsClosed(sys: System, s: State, steps: seq<Step>, h: Hash)
    requires Closed(sys, s, h)
    ensures Closed(sys, Exec(sys, s, steps), h)
    decreases |steps|
  {
    if steps != [] {
      var k := |steps| - 1;
      RunKeepsClosed(sys, s, steps[..k], h);
      StepKeepsClosed(sys, Exec(sys, s, steps[..k]), steps[k], h);
    }
  }

  /** An authorization the ledger knows when the run starts is never settled in it. */
  lemma KnownNeverSettled(sys: System, ledger: Ledger, steps: seq<Step>, fp: Fingerprint)
    requires sys.hash(fp) in ledger
    ensures fp !in Exec(sys, Init(ledger), steps).calls
  {
    RunKeepsClosed(sys, Init(ledger), steps, sys.hash(fp));
    var s := Exec(sys, Init(ledger), steps);
    assert !CalledHash(sys, s, sys.hash(fp));
  }
}
