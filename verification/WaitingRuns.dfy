/** Requests for an authorization that is running in their process (live402/replay.py, begin and wait). */
module WaitingRuns {
  import opened Collections
  import opened Json
  import opened Outcomes
  import opened PaidRoute
  import opened Replay
  import opened ReplayProtocol
  import opened ReplayAgreement

  /** A request arrives while its authorization is running in its process. */
  ghost predicate Joins(s: State, owner: Tid, tid: Tid) {
    && owner in s.threads && s.threads[owner].Running? && tid in s.threads && s.threads[tid].Starting?
    && s.threads[tid].job.pid == s.threads[owner].job.pid && s.threads[tid].job.fp == s.threads[owner].job.fp
    && Free(s, s.threads[tid].job.pid)
  }

  /** Such a request waits for the entry of the running one, or is refused when it is of another scope. */
  lemma JoinerWaits(sys: System, s: State, owner: Tid, tid: Tid, io: Io)
    requires Agreed(sys, s) && Joins(s, owner, tid)
    ensures var t, job := s.threads[owner], s.threads[tid].job;
            var s' := Apply(sys, s, CheckStep(tid, io));
            && s'.threads == s.threads[tid := if job.scope == t.job.scope then Thread.Waiting(job, t.eid)
                                              else Answered(job, FromRefusal, Refusal(job))]
            && s'.entries == s.entries && s'.clocks == s.clocks && s'.locks == s.locks
            && s'.rams.Keys == s.rams.Keys && s'.rams[job.pid].inflight == s.rams[job.pid].inflight
            && t.eid < |s.entries| && job.fp in s.rams[job.pid].inflight
            && s.rams[job.pid].inflight[job.fp].entry == t.eid
  {
    hide Check, Refusal, Pruned, LookupRow;
    var t, job := s.threads[owner], s.threads[tid].job;
    assert ThreadOk(sys, s, t);
    hide ThreadsOk, KeptsOk;
    assert SlotOk(sys, s, job.pid, job.fp);
    NotKept(sys, s, job.pid, job.fp);
    var ram := PrunedRam(s, job.pid);
    assert forall x :: x in ram.completed ==> x in s.rams[job.pid].completed;
    InFlight(sys, s, ram, job, io, s.clocks[job.pid]);
  }

  /** What is in flight and not kept is waited for. */
  lemma InFlight(sys: System, s: State, ram: Ram<Eid>, job: Job, io: Io, now: real)
    requires (forall x :: x in ram.completed ==> x.key != job.fp) && job.fp in ram.inflight
    ensures Check(sys.codec, sys.hash, ram, s.ledger, io, job.fp, job.legacy, job.scope, now)
            == if ram.inflight[job.fp].scope == job.scope then Verdict.Wait(ram.inflight[job.fp].entry) else Refuse
  {
    hide LookupRow;
  }

  lemma NotKept(sys: System, s: State, pid: Pid, fp: Fingerprint)
    requires KeptsOk(sys, s) && pid in s.rams && fp !in s.published
    ensures forall x :: x in s.rams[pid].completed ==> x.key != fp
  {
    forall x | x in s.rams[pid].completed ensures x.key != fp { assert KeptOk(sys, s, x); }
  }

  /** A request that joins a running one in its scope is answered with what that one ends with, redacted; it need not
      ask the ledger, and whether the ledger takes the outcome does not matter. In another scope it is refused. */
  lemma JoinersGetTheAnswer(sys: System, ledger: Ledger, steps: seq<Step>, owner: Tid, tid: Tid, io: Io, write: Write)
    requires sys.codec.Inverse()
    requires var s := Exec(sys, Init(ledger), steps);
             && Joins(s, owner, tid)
             && s.threads[owner].done
                == |Effects(sys.codec, s.threads[owner].job.request, s.threads[owner].job.world)|
    ensures var s := Exec(sys, Init(ledger), steps);
            var job, o := s.threads[tid].job, s.threads[owner].job;
            var end := Exec(sys, Init(ledger),
                            steps + [CheckStep(tid, io), FinishStep(owner, write), WakeStep(tid)]);
            && tid in end.threads
            && end.threads[tid]
               == if job.scope == o.scope
                  then Answered(job, FromWait, Sanitize(sys.codec, Result(sys.codec, o.request, o.world)))
                  else Answered(job, FromRefusal, UnknownOutcome(job.request.rail, JNull))
  {
    hide Effects, Result, Sanitize, Agreed, Check, FinishRam, FinishRow, UnknownOutcome, Exec;
    RunsAgree(sys, ledger, steps);
    var s := Exec(sys, Init(ledger), steps);
    JoinerWaits(sys, s, owner, tid, io);
    ThreeMore(sys, Init(ledger), steps, CheckStep(tid, io), FinishStep(owner, write), WakeStep(tid));
    var s1 := Apply(sys, s, CheckStep(tid, io));
    assert s1.threads[owner] == s.threads[owner];
    Finished(sys, s1, owner, tid, write);
  }

  lemma Finished(sys: System, s: State, owner: Tid, tid: Tid, write: Write)
    requires owner in s.threads && s.threads[owner].Running? && tid in s.threads && tid != owner
    requires var t := s.threads[owner];
             && Free(s, t.job.pid) && t.done == |Effects(sys.codec, t.job.request, t.job.world)|
             && t.eid < |s.entries| && t.job.fp in s.rams[t.job.pid].inflight
             && s.rams[t.job.pid].inflight[t.job.fp].entry == t.eid
             && (s.threads[tid].Waiting? ==> s.threads[tid].eid == t.eid)
    requires s.threads[tid].Waiting? || s.threads[tid].Answered?
    ensures var o := s.threads[owner].job;
            var end := Apply(sys, Apply(sys, s, FinishStep(owner, write)), WakeStep(tid));
            && tid in end.threads
            && end.threads[tid]
               == if s.threads[tid].Waiting?
                  then Answered(s.threads[tid].job, FromWait,
                                Sanitize(sys.codec, Result(sys.codec, o.request, o.world)))
                  else s.threads[tid]
  {
    hide Effects, Result, Sanitize, FinishRam, FinishRow;
  }

  lemma ThreeMore(sys: System, s: State, steps: seq<Step>, a: Step, b: Step, c: Step)
    ensures Exec(sys, s, steps + [a, b, c])
            == Apply(sys, Apply(sys, Apply(sys, Exec(sys, s, steps), a), b), c)
  {
    hide Apply, Exec;
    OneMore(sys, s, steps, a);
    OneMore(sys, s, steps + [a], b);
    OneMore(sys, s, steps + [a] + [b], c);
    assert steps + [a, b, c] == steps + [a] + [b] + [c];
  }

  lemma OneMore(sys: System, s: State, steps: seq<Step>, a: Step)
    ensures Exec(sys, s, steps + [a]) == Apply(sys, Exec(sys, s, steps), a)
  {
    hide Apply;
    assert (steps + [a])[..|steps|] == steps;
  }
}
