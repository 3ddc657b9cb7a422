/** Authorizations that were persisted under their legacy fingerprint (live402/replay.py, begin). */
module LegacyRuns {
  import opened Collections
  import opened Outcomes
  import opened PaidRoute
  import opened Replay
  import opened ReplayProtocol

  /** Every request that arrives for `fp` carries `l` as its legacy fingerprint. */
  ghost predicate CarryLegacy(steps: seq<Step>, fp: Fingerprint, l: Fingerprint) {
    forall i :: 0 <= i < |steps| && steps[i].Arrive? && steps[i].job.fp == fp ==> steps[i].job.legacy == Some(l)
  }

  /** No other authorization that arrives has the hash of `fp`. */
  ghost predicate AloneUnderHash(sys: System, steps: seq<Step>, fp: Fingerprint) {
    forall i :: 0 <= i < |steps| && steps[i].Arrive? && sys.hash(steps[i].job.fp) == sys.hash(fp) ==>
      steps[i].job.fp == fp
  }

  /** Answers there can be for `fp`: a refusal, what the legacy row reads as, and, when another
      authorization may have its hash, what a row under that hash reads as. */
  predicate LegacyAnswer(sys: System, row: Row, t: Thread, alone: bool)
    requires t.Answered?
  {
    || (t.how.FromRefusal? && t.outcome == Refusal(t.job))
    || (t.how == FromCache(FromLegacy) && Readable(sys.codec, row) == Some(t.outcome))
    || (t.how == FromCache(FromLedger) && !alone)
  }

  predicate ThreadFine(sys: System, row: Row, t: Thread, fp: Fingerprint, l: Fingerprint, alone: bool) {
    t.Gone?
    || (if t.job.fp == fp then
          t.job.legacy == Some(l) && (t.Starting? || (t.Answered? && LegacyAnswer(sys, row, t, alone)))
        else alone ==> sys.hash(t.job.fp) != sys.hash(fp))
  }

  predicate RamFine(ram: Ram<Eid>, fp: Fingerprint) {
    fp !in ram.inflight && !Has(ram.completed, fp)
  }

  /** The legacy row is as it was, and nothing was ever run, kept or published for `fp`. */
  ghost predicate LegacyOnly(sys: System, row: Row, s: State, fp: Fingerprint, l: Fingerprint, alone: bool) {
    && Closed(sys, s, sys.hash(l)) && s.ledger[sys.hash(l)] == row
    && fp !in s.calls
    && (alone ==> sys.hash(fp) !in s.ledger)
    && (forall pid :: pid in s.rams ==> RamFine(s.rams[pid], fp))
    && (forall t :: t in s.threads ==> ThreadFine(sys, row, s.threads[t], fp, l, alone))
  }

  /** Pruning and storing another key bring in no entry for `fp`. */
  lemma PrunedHas(c: Odict<Fingerprint, Kept>, now: real, fp: Fingerprint)
    requires !Has(c, fp)
    ensures !Has(Pruned(c, now), fp)
  {
    var r := Pruned(c, now);
    forall i | 0 <= i < |r| ensures r[i].key != fp { assert r[i] in r; }
  }

  lemma PutHas(c: Odict<Fingerprint, Kept>, k: Fingerprint, v: Kept, fp: Fingerprint)
    requires !Has(c, fp) && k != fp
    ensures !Has(Put(c, k, v), fp)
  {
    var r := Put(c, k, v);
    forall i | 0 <= i < |r| ensures r[i].key != fp { assert r[i] in r; }
  }

  /** With the legacy row in the ledger the checks never let such a request proceed. */
  lemma LegacyChecked(sys: System, ram: Ram<Eid>, ledger: Ledger, io: Io, fp: Fingerprint, l: Fingerprint,
                      scope: Scope, now: real)
    requires RamFine(ram, fp) && sys.hash(l) in ledger && l != "" && l != fp
    ensures match Check(sys.codec, sys.hash, ram, ledger, io, fp, Some(l), scope, now)
            case Replayed(FromLegacy, o) =>
              sys.hash(fp) !in ledger && Readable(sys.codec, ledger[sys.hash(l)]) == Some(o)
            case Replayed(FromLedger, _) => sys.hash(fp) in ledger
            case Refuse => true
            case _ => false
    ensures io.read && io.legacyRead && sys.hash(fp) !in ledger ==>
              Check(sys.codec, sys.hash, ram, ledger, io, fp, Some(l), scope, now) ==
              match Readable(sys.codec, ledger[sys.hash(l)])
              case Some(o) => Replayed(FromLegacy, o)
              case None => Refuse
  {
    hide Readable;
    assert !Has(ram.completed, fp);
  }

  lemma CheckLegacy(sys: System, row: Row, s: State, tid: Tid, io: Io, fp: Fingerprint, l: Fingerprint, alone: bool)
    requires LegacyOnly(sys, row, s, fp, l, alone) && l != "" && l != fp
    requires tid in s.threads && s.threads[tid].Starting? && Free(s, s.threads[tid].job.pid)
    ensures LegacyOnly(sys, row, CheckOf(sys, s, tid, s.threads[tid].job, io), fp, l, alone)
  {
    hide Check, Pruned, Readable, Refusal, Closed;
    var job := s.threads[tid].job;
    var s' := CheckOf(sys, s, tid, job, io);
    var ram, now := PrunedRam(s, job.pid), s.clocks[job.pid];
    var verdict := Check(sys.codec, sys.hash, ram, s.ledger, io, job.fp, job.legacy, job.scope, now);
    RowIsThere(sys, s, sys.hash(l));
    CheckKeepsClosed(sys, s, tid, job, io, sys.hash(l));
    assert ThreadFine(sys, row, s.threads[tid], fp, l, alone) && RamFine(s.rams[job.pid], fp);
    PrunedHas(s.rams[job.pid].completed, now, fp);
    if job.fp == fp { LegacyChecked(sys, ram, s.ledger, io, fp, l, job.scope, now); }
    FollowChanges(s.(rams := s.rams[job.pid := ram]), tid, job, verdict);
    forall t | t in s'.threads ensures ThreadFine(sys, row, s'.threads[t], fp, l, alone) {
      if t != tid { assert ThreadFine(sys, row, s.threads[t], fp, l, alone); }
    }
  }

  lemma RowIsThere(sys: System, s: State, h: Hash)
    ensures Closed(sys, s, h) ==> h in s.ledger
  {
  }

  lemma ReserveLegacy(sys: System, row: Row, s: State, tid: Tid, io: Io, fp: Fingerprint, l: Fingerprint, alone: bool)
    requires LegacyOnly(sys, row, s, fp, l, alone)
    requires tid in s.threads && s.threads[tid].Reserving? && s.threads[tid].job.pid in s.rams
    ensures LegacyOnly(sys, row, ReserveOf(sys, s, tid, s.threads[tid].job, io), fp, l, alone)
  {
    hide Readable, Refusal, Closed;
    var job := s.threads[tid].job;
    var s' := ReserveOf(sys, s, tid, job, io);
    RowIsThere(sys, s, sys.hash(l));
    ReserveKeepsClosed(sys, s, tid, job, io, sys.hash(l));
    assert ThreadFine(sys, row, s.threads[tid], fp, l, alone) && RamFine(s.rams[job.pid], fp);
    forall t | t in s'.threads ensures ThreadFine(sys, row, s'.threads[t], fp, l, alone) {
      if t != tid { assert ThreadFine(sys, row, s.threads[t], fp, l, alone); }
    }
  }

  lemma EffectLegacy(sys: System, row: Row, s: State, tid: Tid, fp: Fingerprint, l: Fingerprint, alone: bool)
    requires LegacyOnly(sys, row, s, fp, l, alone)
    requires tid in s.threads && s.threads[tid].Running?
    requires s.threads[tid].done < |Effects(sys.codec, s.threads[tid].job.request, s.threads[tid].job.world)|
    ensures LegacyOnly(sys, row, EffectOf(sys, s, tid, s.threads[tid]), fp, l, alone)
  {
    hide Readable, Refusal, Closed, Effects;
    var s' := EffectOf(sys, s, tid, s.threads[tid]);
    RowIsThere(sys, s, sys.hash(l));
    EffectKeepsClosed(sys, s, tid, sys.hash(l));
    assert ThreadFine(sys, row, s.threads[tid], fp, l, alone);
    forall t | t in s'.threads ensures ThreadFine(sys, row, s'.threads[t], fp, l, alone) {
      if t != tid { assert ThreadFine(sys, row, s.threads[t], fp, l, alone); }
    }
  }

  lemma FinishLegacy(sys: System, row: Row, s: State, tid: Tid, o: Outcome, write: Write, fp: Fingerprint,
                     l: Fingerprint, alone: bool)
    requires LegacyOnly(sys, row, s, fp, l, alone)
    requires tid in s.threads && s.threads[tid].Running? && Free(s, s.threads[tid].job.pid)
    ensures LegacyOnly(sys, row, FinishOf(sys, s, tid, s.threads[tid].job, o, write), fp, l, alone)
  {
    hide Readable, Refusal, Sanitize, Encode, StateOf, Pruned;
    var job := s.threads[tid].job;
    var s' := FinishOf(sys, s, tid, job, o, write);
    FinishKeepsClosed(sys, s, tid, o, write, sys.hash(l));
    assert HashOf(sys, s.threads[tid]) != sys.hash(l);
    hide Closed;
    assert ThreadFine(sys, row, s.threads[tid], fp, l, alone) && RamFine(s.rams[job.pid], fp);
    var ram, now := s.rams[job.pid], s.clocks[job.pid];
    var safe := Sanitize(sys.codec, o);
    PrunedHas(ram.completed, now, fp);
    var scope := if job.fp in ram.inflight then ram.inflight[job.fp].scope else None;
    PutHas(Pruned(ram.completed, now), job.fp, Kept.Kept(now + TTL, scope, safe), fp);
    PrunedHas(Put(Pruned(ram.completed, now), job.fp, Kept.Kept(now + TTL, scope, safe)), now, fp);
    assert RamFine(s'.rams[job.pid], fp);
    forall t | t in s'.threads ensures ThreadFine(sys, row, s'.threads[t], fp, l, alone) {
      if t != tid { assert ThreadFine(sys, row, s.threads[t], fp, l, alone); }
    }
  }

  lemma AbandonLegacy(sys: System, row: Row, s: State, tid: Tid, write: Write, fp: Fingerprint, l: Fingerprint,
                      alone: bool)
    requires LegacyOnly(sys, row, s, fp, l, alone)
    requires tid in s.threads && s.threads[tid].Running? && Free(s, s.threads[tid].job.pid)
    ensures LegacyOnly(sys, row, AbandonOf(sys, s, tid, s.threads[tid].job, write), fp, l, alone)
  {
    hide Readable, Refusal;
    var s' := AbandonOf(sys, s, tid, s.threads[tid].job, write);
    AbandonKeepsClosed(sys, s, tid, write, sys.hash(l));
    assert HashOf(sys, s.threads[tid]) != sys.hash(l);
    hide Closed;
    assert ThreadFine(sys, row, s.threads[tid], fp, l, alone) && RamFine(s.rams[s.threads[tid].job.pid], fp);
    forall t | t in s'.threads ensures ThreadFine(sys, row, s'.threads[t], fp, l, alone) {
      if t != tid { assert ThreadFine(sys, row, s.threads[t], fp, l, alone); }
    }
  }

  /** A waiting thread is never one of `fp`. */
  lemma WakeLegacy(sys: System, row: Row, s: State, tid: Tid, fp: Fingerprint, l: Fingerprint, alone: bool)
    requires LegacyOnly(sys, row, s, fp, l, alone)
    requires tid in s.threads && s.threads[tid].Waiting? && s.threads[tid].eid < |s.entries|
    ensures LegacyOnly(sys, row, WakeOf(s, tid, s.threads[tid].job, s.threads[tid].eid), fp, l, alone)
  {
    hide Readable, Refusal, Closed;
    var s' := WakeOf(s, tid, s.threads[tid].job, s.threads[tid].eid);
    RowIsThere(sys, s, sys.hash(l));
    WakeKeepsClosed(sys, s, tid, sys.hash(l));
    assert ThreadFine(sys, row, s.threads[tid], fp, l, alone);
    forall t | t in s'.threads ensures ThreadFine(sys, row, s'.threads[t], fp, l, alone) {
      if t != tid { assert ThreadFine(sys, row, s.threads[t], fp, l, alone); }
    }
  }

  lemma LocalLegacy(sys: System, row: Row, s: State, step: Step, fp: Fingerprint, l: Fingerprint, alone: bool)
    requires LegacyOnly(sys, row, s, fp, l, alone)
    requires step.Boot? || step.Tick? || step.Arrive? || step.DieStep?
    requires step.Arrive? ==> (step.job.fp == fp ==> step.job.legacy == Some(l))
                              && (alone && sys.hash(step.job.fp) == sys.hash(fp) ==> step.job.fp == fp)
    ensures LegacyOnly(sys, row, Apply(sys, s, step), fp, l, alone)
  {
    hide Readable, Refusal, Closed, Supported;
    var s' := Apply(sys, s, step);
    RowIsThere(sys, s, sys.hash(l));
    StepKeepsClosed(sys, s, step, sys.hash(l));
    forall t | t in s'.threads ensures ThreadFine(sys, row, s'.threads[t], fp, l, alone) {
      if t in s.threads { assert ThreadFine(sys, row, s.threads[t], fp, l, alone); }
    }
  }

  lemma StepLegacy(sys: System, row: Row, s: State, step: Step, fp: Fingerprint, l: Fingerprint, alone: bool)
    requires LegacyOnly(sys, row, s, fp, l, alone) && l != "" && l != fp
    requires step.Arrive? ==> (step.job.fp == fp ==> step.job.legacy == Some(l))
                              && (alone && sys.hash(step.job.fp) == sys.hash(fp) ==> step.job.fp == fp)
    ensures LegacyOnly(sys, row, Apply(sys, s, step), fp, l, alone)
  {
    hide Effects, Result, Refusal, FinishOf, ReserveOf, EffectOf, CheckOf, AbandonOf, WakeOf, BootOf, LegacyOnly;
    var s' := Apply(sys, s, step);
    match step
    case CheckStep(tid, io) => if s' != s { CheckLegacy(sys, row, s, tid, io, fp, l, alone); }
    case ReserveStep(tid, io) => if s' != s { ReserveLegacy(sys, row, s, tid, io, fp, l, alone); }
    case EffectStep(tid) => if s' != s { EffectLegacy(sys, row, s, tid, fp, l, alone); }
    case FinishStep(tid, write) =>
      if s' != s {
        FinishLegacy(sys, row, s, tid, Result(sys.codec, s.threads[tid].job.request, s.threads[tid].job.world), write,
                     fp, l, alone);
      }
    case RaiseStep(tid, write) =>
      if s' != s { FinishLegacy(sys, row, s, tid, Refusal(s.threads[tid].job), write, fp, l, alone); }
    case AbandonStep(tid, write) => if s' != s { AbandonLegacy(sys, row, s, tid, write, fp, l, alone); }
    case WakeStep(tid) => if s' != s { WakeLegacy(sys, row, s, tid, fp, l, alone); }
    case _ => LocalLegacy(sys, row, s, step, fp, l, alone);
  }

  lemma {:induction false} RunsLegacy(sys: System, ledger: Ledger, steps: seq<Step>, fp: Fingerprint, l: Fingerprint,
                                      alone: bool)
    requires sys.hash(l) in ledger && l != "" && l != fp && CarryLegacy(steps, fp, l)
    requires alone ==> AloneUnderHash(sys, steps, fp) && sys.hash(fp) !in ledger
    ensures LegacyOnly(sys, ledger[sys.hash(l)], Exec(sys, Init(ledger), steps), fp, l, alone)
    decreases |steps|
  {
    hide Apply;
    if steps != [] {
      var k := |steps| - 1;
      RunsLegacy(sys, ledger, steps[..k], fp, l, alone);
      StepLegacy(sys, ledger[sys.hash(l)], Exec(sys, Init(ledger), steps[..k]), steps[k], fp, l, alone);
    }
  }

  /** A payment that the ledger knows under its legacy hash is never settled again: in every run in which
      the requests for it carry that fingerprint, whatever the reads, writes, crashes and collisions do. */
  lemma LegacyNeverSettled(sys: System, ledger: Ledger, steps: seq<Step>, fp: Fingerprint, l: Fingerprint)
    requires sys.hash(l) in ledger && l != "" && l != fp && CarryLegacy(steps, fp, l)
    ensures fp !in Exec(sys, Init(ledger), steps).calls
  {
    RunsLegacy(sys, ledger, steps, fp, l, false);
  }

  /** ... and every answer to such a request is what the legacy row reads as, in any scope, or a refusal;
      the row is as it was. */
  lemma LegacyAnswersOnly(sys: System, ledger: Ledger, steps: seq<Step>, fp: Fingerprint, l: Fingerprint, tid: Tid)
    requires sys.hash(l) in ledger && l != "" && l != fp && CarryLegacy(steps, fp, l)
    requires sys.hash(fp) !in ledger && AloneUnderHash(sys, steps, fp)
    ensures var s := Exec(sys, Init(ledger), steps);
            && sys.hash(l) in s.ledger && s.ledger[sys.hash(l)] == ledger[sys.hash(l)] && sys.hash(fp) !in s.ledger
            && (tid in s.threads && !s.threads[tid].Gone? && s.threads[tid].job.fp == fp ==>
                 || s.threads[tid].Starting?
                 || (s.threads[tid].Answered? && s.threads[tid].how.FromRefusal?
                     && s.threads[tid].outcome == Refusal(s.threads[tid].job))
                 || (s.threads[tid].Answered? && s.threads[tid].how == FromCache(FromLegacy)
                     && Readable(sys.codec, ledger[sys.hash(l)]) == Some(s.threads[tid].outcome)))
  {
    hide Exec, Readable, Refusal;
    RunsLegacy(sys, ledger, steps, fp, l, true);
    var s := Exec(sys, Init(ledger), steps);
    if tid in s.threads { assert ThreadFine(sys, ledger[sys.hash(l)], s.threads[tid], fp, l, true); }
  }

  /** One such request, when both reads succeed: it is answered from the legacy row exactly if that row
      reads as an outcome, and refused otherwise. */
  lemma LegacyIsReplayed(sys: System, ledger: Ledger, steps: seq<Step>, fp: Fingerprint, l: Fingerprint, tid: Tid,
                         io: Io)
    requires sys.hash(l) in ledger && l != "" && l != fp && CarryLegacy(steps, fp, l)
    requires sys.hash(fp) !in ledger && AloneUnderHash(sys, steps, fp)
    requires var s := Exec(sys, Init(ledger), steps);
             && tid in s.threads && s.threads[tid].Starting? && s.threads[tid].job.fp == fp
             && Free(s, s.threads[tid].job.pid)
    requires io.read && io.legacyRead
    ensures var s := Exec(sys, Init(ledger), steps);
            var s' := Apply(sys, s, CheckStep(tid, io));
            tid in s'.threads && s'.threads[tid] ==
              match Readable(sys.codec, ledger[sys.hash(l)])
              case Some(o) => Answered(s.threads[tid].job, FromCache(FromLegacy), o)
              case None => Answered(s.threads[tid].job, FromRefusal, Refusal(s.threads[tid].job))
  {
    hide Exec, Readable, Refusal, Check, Pruned, Closed;
    RunsLegacy(sys, ledger, steps, fp, l, true);
    var s := Exec(sys, Init(ledger), steps);
    var job := s.threads[tid].job;
    assert ThreadFine(sys, ledger[sys.hash(l)], s.threads[tid], fp, l, true) && RamFine(s.rams[job.pid], fp);
    RowIsThere(sys, s, sys.hash(l));
    PrunedHas(s.rams[job.pid].completed, s.clocks[job.pid], fp);
    LegacyChecked(sys, PrunedRam(s, job.pid), s.ledger, io, fp, l, job.scope, s.clocks[job.pid]);
  }
}
