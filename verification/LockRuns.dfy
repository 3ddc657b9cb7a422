/** The process lock of the replay guard (live402/replay.py, begin): who holds it, and that nobody who is gone does. */
module LockRuns {
  import opened Collections
  import opened Outcomes
  import opened Replay
  import PaidRoute
  import opened ReplayProtocol

  /** A thread between its checks and its reservation. */
  ghost predicate Reserves(s: State, tid: Tid, pid: Pid) {
    tid in s.threads && s.threads[tid].Reserving? && s.threads[tid].job.pid == pid
  }

  /** A process is locked exactly while one of its threads is about to reserve, by that thread. */
  ghost predicate LocksOk(s: State) {
    && (forall pid, tid :: Reserves(s, tid, pid) <==> pid in s.locks && s.locks[pid] == tid)
    && (forall tid :: tid in s.threads && !s.threads[tid].Gone? ==> s.threads[tid].job.pid in s.rams)
    && s.clocks.Keys == s.rams.Keys
  }

  /** A step of one thread that locks and unlocks nothing, and is no reservation before or after. */
  lemma OthersLocks(s: State, s': State, tid: Tid)
    requires LocksOk(s) && s'.locks == s.locks && s'.rams.Keys == s.rams.Keys && s'.clocks.Keys == s.clocks.Keys
    requires tid in s'.threads && s'.threads == s.threads[tid := s'.threads[tid]]
    requires !s'.threads[tid].Reserving? && (tid in s.threads ==> !s.threads[tid].Reserving?)
    requires !s'.threads[tid].Gone? ==> s'.threads[tid].job.pid in s.rams
    ensures LocksOk(s')
  {
    forall pid, t ensures Reserves(s', t, pid) <==> pid in s'.locks && s'.locks[pid] == t {
      assert Reserves(s', t, pid) <==> Reserves(s, t, pid);
    }
  }

  lemma BootLocks(s: State, pid: Pid)
    requires LocksOk(s)
    ensures LocksOk(BootOf(s, pid))
  {
    var s' := BootOf(s, pid);
    forall p, t ensures Reserves(s', t, p) <==> p in s'.locks && s'.locks[p] == t {
      assert Reserves(s, t, p) <==> p in s.locks && s.locks[p] == t;
      assert Reserves(s', t, p) <==> Reserves(s, t, p) && p != pid;
    }
  }

  lemma CheckLocks(sys: System, s: State, tid: Tid, io: Io)
    requires LocksOk(s) && tid in s.threads && s.threads[tid].Starting? && Free(s, s.threads[tid].job.pid)
    ensures LocksOk(CheckOf(sys, s, tid, s.threads[tid].job, io))
  {
    hide LocksOk, CheckOf;
    var s' := CheckOf(sys, s, tid, s.threads[tid].job, io);
    CheckedThread(sys, s, tid, io);
    if s'.threads[tid].Reserving? { Locked(s, s', tid); } else { OthersLocks(s, s', tid); }
  }

  /** What a check leaves of its thread and its process. */
  lemma CheckedThread(sys: System, s: State, tid: Tid, io: Io)
    requires tid in s.threads && s.threads[tid].Starting? && Free(s, s.threads[tid].job.pid)
    ensures var job, s' := s.threads[tid].job, CheckOf(sys, s, tid, s.threads[tid].job, io);
            && s'.rams.Keys == s.rams.Keys && s'.clocks.Keys == s.clocks.Keys
            && tid in s'.threads && s'.threads == s.threads[tid := s'.threads[tid]]
            && !s'.threads[tid].Gone? && s'.threads[tid].job == job
            && s'.locks == if s'.threads[tid].Reserving? then s.locks[job.pid := tid] else s.locks
  {
    hide Check, Pruned, Refusal;
  }

  /** A thread of an unlocked process that is now reserving has taken its lock. */
  lemma Locked(s: State, s': State, tid: Tid)
    requires LocksOk(s) && tid in s.threads && s.threads[tid].Starting? && s.threads[tid].job.pid !in s.locks
    requires tid in s'.threads && s'.threads == s.threads[tid := s'.threads[tid]]
    requires s'.threads[tid].Reserving? && s'.threads[tid].job == s.threads[tid].job
    requires s'.locks == s.locks[s.threads[tid].job.pid := tid]
    requires s'.rams.Keys == s.rams.Keys && s'.clocks.Keys == s.clocks.Keys
    ensures LocksOk(s')
  {
    forall p, t ensures Reserves(s', t, p) <==> p in s'.locks && s'.locks[p] == t {
      assert Reserves(s, t, p) <==> p in s.locks && s.locks[p] == t;
      assert Reserves(s', t, p) <==> if t == tid then p == s.threads[tid].job.pid else Reserves(s, t, p);
    }
  }

  /** A thread that is not reserving any more has given its lock back. */
  lemma Released(s: State, s': State, tid: Tid)
    requires LocksOk(s) && tid in s.threads && s.threads[tid].Reserving?
    requires s'.locks == s.locks - {s.threads[tid].job.pid}
    requires s'.rams.Keys == s.rams.Keys && s'.clocks.Keys == s.clocks.Keys
    requires tid in s'.threads && s'.threads == s.threads[tid := s'.threads[tid]] && !s'.threads[tid].Reserving?
    requires !s'.threads[tid].Gone? ==> s'.threads[tid].job.pid in s.rams
    ensures LocksOk(s')
  {
    var pid := s.threads[tid].job.pid;
    assert Reserves(s, tid, pid);
    forall p, t ensures Reserves(s', t, p) <==> p in s'.locks && s'.locks[p] == t {
      assert Reserves(s, t, p) <==> p in s.locks && s.locks[p] == t;
      assert Reserves(s', t, p) <==> t != tid && Reserves(s, t, p);
    }
  }

  lemma ReserveLocks(sys: System, s: State, tid: Tid, io: Io)
    requires LocksOk(s) && tid in s.threads && s.threads[tid].Reserving? && s.threads[tid].job.pid in s.rams
    ensures LocksOk(ReserveOf(sys, s, tid, s.threads[tid].job, io))
  {
    hide LocksOk, Reserve, Refusal;
    Released(s, ReserveOf(sys, s, tid, s.threads[tid].job, io), tid);
  }

  lemma DieLocks(sys: System, s: State, tid: Tid)
    requires LocksOk(s) && tid in s.threads && !s.threads[tid].Gone?
    ensures LocksOk(Apply(sys, s, DieStep(tid)))
  {
    hide LocksOk;
    if s.threads[tid].Reserving? { Released(s, Apply(sys, s, DieStep(tid)), tid); }
    else { OthersLocks(s, Apply(sys, s, DieStep(tid)), tid); }
  }

  /** The remaining steps of a thread neither lock nor unlock. */
  lemma WorkLocks(sys: System, s: State, step: Step)
    requires LocksOk(s)
    requires step.EffectStep? || step.FinishStep? || step.RaiseStep? || step.AbandonStep? || step.WakeStep?
    ensures LocksOk(Apply(sys, s, step))
  {
    hide LocksOk, Apply;
    var s' := Apply(sys, s, step);
    if s' != s {
      if step.EffectStep? || step.WakeStep? { MoveWorks(sys, s, step); }
      else if step.AbandonStep? { AbandonWorks(sys, s, step); }
      else { EndWorks(sys, s, step); }
      OthersLocks(s, s', step.tid);
    }
  }

  /** The step moves its thread, which neither was nor is reserving, and touches no lock, memory map or clock key. */
  ghost predicate Works(s: State, s': State, tid: Tid) {
    && s'.locks == s.locks && s'.rams.Keys == s.rams.Keys && s'.clocks.Keys == s.clocks.Keys
    && tid in s.threads && !s.threads[tid].Reserving?
    && tid in s'.threads && s'.threads == s.threads[tid := s'.threads[tid]] && !s'.threads[tid].Reserving?
    && (!s'.threads[tid].Gone? ==> s'.threads[tid].job.pid in s.rams)
  }

  lemma MoveWorks(sys: System, s: State, step: Step)
    requires LocksOk(s) && (step.EffectStep? || step.WakeStep?)
    ensures Apply(sys, s, step) != s ==> Works(s, Apply(sys, s, step), step.tid)
  {
    hide Reserves, Refusal, PaidRoute.Effects, PaidRoute.Result;
  }

  lemma EndWorks(sys: System, s: State, step: Step)
    requires LocksOk(s) && (step.FinishStep? || step.RaiseStep?)
    ensures Apply(sys, s, step) != s ==> Works(s, Apply(sys, s, step), step.tid)
  {
    hide Reserves, Refusal, PaidRoute.Effects, PaidRoute.Result, FinishRam, FinishRow, Sanitize;
  }

  lemma AbandonWorks(sys: System, s: State, step: Step)
    requires LocksOk(s) && step.AbandonStep?
    ensures Apply(sys, s, step) != s ==> Works(s, Apply(sys, s, step), step.tid)
  {
    hide Reserves, Refusal, PaidRoute.Effects, PaidRoute.Result, MarkUnknown;
  }

  lemma StepLocks(sys: System, s: State, step: Step)
    requires LocksOk(s)
    ensures LocksOk(Apply(sys, s, step))
  {
    hide LocksOk, Reserves, CheckOf, ReserveOf, EffectOf, FinishOf, AbandonOf, WakeOf, BootOf, PaidRoute.Effects,
         PaidRoute.Result;
    match step
    case Boot(pid) => BootLocks(s, pid);
    case Tick(pid, dt) => TickLocks(sys, s, step);
    case Arrive(tid, job) => TickLocks(sys, s, step);
    case CheckStep(tid, io) =>
      if tid in s.threads && s.threads[tid].Starting? && Free(s, s.threads[tid].job.pid) {
        CheckLocks(sys, s, tid, io);
      }
    case ReserveStep(tid, io) =>
      if tid in s.threads && s.threads[tid].Reserving? && s.threads[tid].job.pid in s.rams {
        ReserveLocks(sys, s, tid, io);
      }
    case DieStep(tid) => if tid in s.threads && !s.threads[tid].Gone? { DieLocks(sys, s, tid); }
    case _ => WorkLocks(sys, s, step);
  }

  lemma TickLocks(sys: System, s: State, step: Step)
    requires LocksOk(s) && (step.Tick? || step.Arrive?)
    ensures LocksOk(Apply(sys, s, step))
  {
    var s' := Apply(sys, s, step);
    forall pid, t ensures Reserves(s', t, pid) <==> Reserves(s, t, pid) {
    }
  }

  lemma {:induction false} RunsLock(sys: System, ledger: Ledger, steps: seq<Step>)
    ensures LocksOk(Exec(sys, Init(ledger), steps))
    decreases |steps|
  {
    hide Apply;
    if steps != [] {
      RunsLock(sys, ledger, steps[..|steps| - 1]);
      StepLocks(sys, Exec(sys, Init(ledger), steps[..|steps| - 1]), steps[|steps| - 1]);
    }
  }

  /** Whatever dies, crashes or fails, in every reachable state a process is locked only by a thread of its own that is
      there and about to reserve, no two of its threads are, and that thread's next step unlocks it: no process stays
      locked by what is gone. */
  lemma LockedByTheLiving(sys: System, ledger: Ledger, steps: seq<Step>, pid: Pid, io: Io)
    requires pid in Exec(sys, Init(ledger), steps).locks
    ensures var s := Exec(sys, Init(ledger), steps);
            var tid := s.locks[pid];
            && tid in s.threads && s.threads[tid].Reserving? && s.threads[tid].job.pid == pid
            && (forall t :: t in s.threads && s.threads[t].Reserving? && s.threads[t].job.pid == pid ==> t == tid)
            && Free(Apply(sys, s, ReserveStep(tid, io)), pid)
  {
    hide Exec, Reserve, Refusal;
    RunsLock(sys, ledger, steps);
    var s := Exec(sys, Init(ledger), steps);
    assert Reserves(s, s.locks[pid], pid);
    forall t | t in s.threads && s.threads[t].Reserving? && s.threads[t].job.pid == pid ensures t == s.locks[pid] {
      assert Reserves(s, t, pid);
    }
  }
}
