/** What the ledger says about money, over whole runs (live402/route.py over live402/replay.py). */
module LedgerTruth {
  import opened Collections
  import opened Outcomes
  import opened PaidRoute
  import opened LedgerClass
  import opened SettleAnswer
  import opened Replay
  import opened ReplayProtocol

  /** A request on a supported rail whose probe answers as run_probe does. */
  predicate JobOk(job: Job) {
    Supported(job.request.rail) && ProbeReturns(job.world)
  }

  ghost predicate Probed(steps: seq<Step>) {
    forall i :: 0 <= i < |steps| && steps[i].Arrive? ==> JobOk(steps[i].job)
  }

  /** What one settle call brought back, and for which authorization and rail. */
  datatype Answer = Answer(fp: Fingerprint, rail: string, settle: CallResult)

  /** The answer that this step hears: that of the settle call it makes, if it makes one. */
  function HeardNow(sys: System, s: State, step: Step): set<Answer> {
    if step.EffectStep? && step.tid in s.threads && s.threads[step.tid].Running? then
      var t := s.threads[step.tid];
      var effects := Effects(sys.codec, t.job.request, t.job.world);
      if t.done < |effects| && effects[t.done] == SettleCall then AnswerTo(t.job) else {}
    else {}
  }

  function AnswerTo(job: Job): set<Answer> {
    {Answer(job.fp, job.request.rail, job.world.settle)}
  }

  /** The answers heard in a run. */
  function HeardIn(sys: System, ledger: Ledger, steps: seq<Step>): set<Answer>
    decreases |steps|
  {
    if steps == [] then {}
    else
      var before := steps[..|steps| - 1];
      HeardIn(sys, ledger, before) + HeardNow(sys, Exec(sys, Init(ledger), before), steps[|steps| - 1])
  }

  /** Money moved under this hash: a settle call for it was accepted on the wire. */
  predicate MovedUnder(sys: System, heard: set<Answer>, h: Hash) {
    exists a :: a in heard && sys.hash(a.fp) == h && WireAccepted(sys.codec, a.settle, a.rail)
  }

  /** A settle call under this hash brought back neither an acceptance nor a refusal. */
  predicate DoubtUnder(sys: System, heard: set<Answer>, h: Hash) {
    exists a :: a in heard && sys.hash(a.fp) == h
                && !WireAccepted(sys.codec, a.settle, a.rail) && !WireRefused(a.settle)
  }

  /** A row's state against what happened under its hash. */
  predicate StateTrue(sys: System, s: State, heard: set<Answer>, h: Hash, state: LedgerState) {
    match state
    case Settled => MovedUnder(sys, heard, h) && !DoubtUnder(sys, heard, h)
    case NotSettled => !CalledHash(sys, s, h)
    case Rejected => !MovedUnder(sys, heard, h) && !DoubtUnder(sys, heard, h)
    case Other(_) => false
    case _ => true
  }

  /** A running thread's row is pending, and money moved exactly when it is past an accepted settle call. */
  ghost predicate RunTrue(sys: System, s: State, heard: set<Answer>, t: Thread)
    requires t.Running?
  {
    var h := HashOf(sys, t);
    && h in s.ledger && s.ledger[h].state.Pending?
    && (MovedUnder(sys, heard, h) <==> PastSettle(t) && MoneyOf(sys.codec, t.job.request, t.job.world).Moved?)
    && (DoubtUnder(sys, heard, h) <==> PastSettle(t) && MoneyOf(sys.codec, t.job.request, t.job.world).InDoubt?)
  }

  /** The invariant; `known` is the ledger at the start of the run. */
  ghost predicate True(sys: System, known: Ledger, s: State, heard: set<Answer>) {
    && (forall a :: a in heard ==> a.fp in s.calls)
    && (forall t :: t in s.threads && !s.threads[t].Gone? ==> JobOk(s.threads[t].job))
    && (forall t :: t in s.threads && s.threads[t].Running? ==> RunTrue(sys, s, heard, s.threads[t]))
    && (forall h :: h in s.ledger && h !in known ==> StateTrue(sys, s, heard, h, s.ledger[h].state))
  }

  lemma HeardIsCalled(sys: System, s: State, heard: set<Answer>, h: Hash)
    requires forall a :: a in heard ==> a.fp in s.calls
    requires MovedUnder(sys, heard, h) || DoubtUnder(sys, heard, h)
    ensures CalledHash(sys, s, h)
  {
    hide WireAccepted, WireRefused;
    var a :| a in heard && sys.hash(a.fp) == h;
    var i :| 0 <= i < |s.calls| && s.calls[i] == a.fp;
  }

  lemma SameCallsTrue(sys: System, s: State, s': State, heard: set<Answer>, h: Hash, state: LedgerState)
    requires s'.calls == s.calls && StateTrue(sys, s, heard, h, state)
    ensures StateTrue(sys, s', heard, h, state)
  {
    SameCalls(sys, s, s', h);
  }

  /** Steps that write no row, make no call and set no thread running. */
  lemma QuietTrue(sys: System, known: Ledger, s: State, s': State, heard: set<Answer>)
    requires True(sys, known, s, heard)
    requires s'.calls == s.calls && s'.ledger == s.ledger
    requires forall t :: t in s'.threads && s'.threads[t].Running? ==> t in s.threads && s'.threads[t] == s.threads[t]
    requires forall t :: t in s'.threads && !s'.threads[t].Gone? ==> JobOk(s'.threads[t].job)
    ensures True(sys, known, s', heard)
  {
    hide JobOk, MoneyOf, StateTrue, MovedUnder, DoubtUnder;
    forall t | t in s'.threads && s'.threads[t].Running? ensures RunTrue(sys, s', heard, s'.threads[t]) {
      assert RunTrue(sys, s, heard, s.threads[t]);
    }
    forall h | h in s'.ledger && h !in known ensures StateTrue(sys, s', heard, h, s'.ledger[h].state) {
      SameCallsTrue(sys, s, s', heard, h, s.ledger[h].state);
    }
  }

  lemma ReserveChanges(sys: System, s: State, tid: Tid, job: Job, io: Io)
    requires job.pid in s.rams && tid in s.threads && s.threads[tid] == Reserving(job)
    ensures var s', h := ReserveOf(sys, s, tid, job, io), sys.hash(job.fp);
            && s'.calls == s.calls && tid in s'.threads && s'.threads == s.threads[tid := s'.threads[tid]]
            && (s'.ledger == s.ledger
                || (h !in s.ledger && s'.ledger == s.ledger[h := Row(Pending, None, VERSION, job.scope)]))
            && (if s'.threads[tid].Running? then
                  h !in s.ledger && h in s'.ledger && s'.threads[tid] == Running(job, |s.entries|, 0)
                else s'.threads[tid].Answered? && s'.threads[tid].job == job)
  {
    hide Refusal;
  }

  lemma ReserveTrue(sys: System, known: Ledger, s: State, heard: set<Answer>, tid: Tid, job: Job, io: Io)
    requires Safe(sys, s) && True(sys, known, s, heard) && job.pid in s.rams
    requires tid in s.threads && s.threads[tid] == Reserving(job)
    ensures True(sys, known, ReserveOf(sys, s, tid, job, io), heard)
  {
    hide JobOk, MoneyOf, MovedUnder, DoubtUnder, CalledHash, ReserveOf, Safe;
    var s' := ReserveOf(sys, s, tid, job, io);
    ReserveChanges(sys, s, tid, job, io);
    NothingHeardYet(sys, s, heard, sys.hash(job.fp));
    forall t | t in s'.threads && s'.threads[t].Running? ensures RunTrue(sys, s', heard, s'.threads[t]) {
      assert t != tid ==> s'.threads[t] == s.threads[t];
      assert t != tid ==> RunTrue(sys, s, heard, s.threads[t]);
    }
    forall h | h in s'.ledger && h !in known ensures StateTrue(sys, s', heard, h, s'.ledger[h].state) {
      if h in s.ledger { SameCallsTrue(sys, s, s', heard, h, s.ledger[h].state); }
    }
  }

  lemma NothingHeardYet(sys: System, s: State, heard: set<Answer>, h: Hash)
    requires Safe(sys, s) && forall a :: a in heard ==> a.fp in s.calls
    ensures h !in s.ledger ==> !MovedUnder(sys, heard, h) && !DoubtUnder(sys, heard, h) && !CalledHash(sys, s, h)
  {
    hide MovedUnder, DoubtUnder;
    if MovedUnder(sys, heard, h) || DoubtUnder(sys, heard, h) { HeardIsCalled(sys, s, heard, h); }
  }

  /** One more answer counts for its own hash only, by what the wire says. */
  lemma OneMore(sys: System, heard: set<Answer>, a: Answer, h: Hash)
    ensures MovedUnder(sys, heard + {a}, h) <==>
              MovedUnder(sys, heard, h) || (sys.hash(a.fp) == h && WireAccepted(sys.codec, a.settle, a.rail))
    ensures DoubtUnder(sys, heard + {a}, h) <==>
              DoubtUnder(sys, heard, h)
              || (sys.hash(a.fp) == h && !WireAccepted(sys.codec, a.settle, a.rail) && !WireRefused(a.settle))
  {
    hide WireAccepted, WireRefused;
    assert forall x :: x in heard + {a} <==> x in heard || x == a;
  }

  lemma CalledMore(sys: System, s: State, s': State, fp: Fingerprint, h: Hash)
    requires s'.calls == s.calls + [fp]
    ensures CalledHash(sys, s', h) <==> CalledHash(sys, s, h) || sys.hash(fp) == h
  {
    if sys.hash(fp) == h { assert s'.calls[|s.calls|] == fp; }
    if CalledHash(sys, s, h) {
      var i :| 0 <= i < |s.calls| && sys.hash(s.calls[i]) == h;
      assert s'.calls[i] == s.calls[i];
    }
  }

  /** One effect of a running thread: for other hashes nothing changes. */
  lemma EffectElsewhere(sys: System, s: State, heard: set<Answer>, tid: Tid, h: Hash)
    requires tid in s.threads && s.threads[tid].Running? && h != HashOf(sys, s.threads[tid])
    requires s.threads[tid].done < |Effects(sys.codec, s.threads[tid].job.request, s.threads[tid].job.world)|
    ensures var t := s.threads[tid];
            var s', heard' := EffectOf(sys, s, tid, t), heard + HeardNow(sys, s, EffectStep(tid));
            && (CalledHash(sys, s', h) <==> CalledHash(sys, s, h))
            && (MovedUnder(sys, heard', h) <==> MovedUnder(sys, heard, h))
            && (DoubtUnder(sys, heard', h) <==> DoubtUnder(sys, heard, h))
  {
    hide Effects, MoneyOf, CalledHash, MovedUnder, DoubtUnder, WireAccepted, WireRefused;
    var t := s.threads[tid];
    var s' := EffectOf(sys, s, tid, t);
    OneMore(sys, heard, Answer(t.job.fp, t.job.request.rail, t.job.world.settle), h);
    assert heard + {} == heard;
    if s'.calls == s.calls { SameCalls(sys, s, s', h); } else { CalledMore(sys, s, s', t.job.fp, h); }
  }

  /** ... and for its own: money has moved exactly when it is past its accepted settle call. */
  lemma EffectHere(sys: System, known: Ledger, s: State, heard: set<Answer>, tid: Tid)
    requires Safe(sys, s) && True(sys, known, s, heard)
    requires tid in s.threads && s.threads[tid].Running?
    requires s.threads[tid].done < |Effects(sys.codec, s.threads[tid].job.request, s.threads[tid].job.world)|
    ensures var t := s.threads[tid];
            var s', heard' := EffectOf(sys, s, tid, t), heard + HeardNow(sys, s, EffectStep(tid));
            RunTrue(sys, s', heard', s'.threads[tid])
  {
    hide Effects, MoneyOf, CalledHash, MovedUnder, DoubtUnder, WireAccepted, WireRefused, JobOk, StateTrue, RunningOk;
    var t := s.threads[tid];
    assert RunTrue(sys, s, heard, t);
    EffectsShape(sys.codec, t.job.request, t.job.world, t.done);
    OneMore(sys, heard, Answer(t.job.fp, t.job.request.rail, t.job.world.settle), HashOf(sys, t));
    MoneyIsOnTheWire(sys.codec, t.job.request, t.job.world);
    assert heard + {} == heard;
  }

  /** Once the settle call has been made, the wire says what happened to the money. */
  lemma MoneyIsOnTheWire(codec: Codec, req: Request, w: World)
    ensures |Effects(codec, req, w)| > 2 ==>
              && (MoneyOf(codec, req, w).Moved? <==> WireAccepted(codec, w.settle, req.rail))
              && (MoneyOf(codec, req, w).InDoubt? <==>
                    !WireAccepted(codec, w.settle, req.rail) && !WireRefused(w.settle))
  {
    hide Effects, WireAccepted, WireRefused;
    if |Effects(codec, req, w)| > 2 {
      EffectsShape(codec, req, w, 2);
      assert Effects(codec, req, w)[2] in Effects(codec, req, w);
      WireIsOneThing(codec, w.settle, req.rail);
    }
  }

  lemma EffectTrue(sys: System, known: Ledger, s: State, heard: set<Answer>, tid: Tid)
    requires Safe(sys, s) && True(sys, known, s, heard)
    requires tid in s.threads && s.threads[tid].Running?
    requires s.threads[tid].done < |Effects(sys.codec, s.threads[tid].job.request, s.threads[tid].job.world)|
    ensures True(sys, known, EffectOf(sys, s, tid, s.threads[tid]), heard + HeardNow(sys, s, EffectStep(tid)))
  {
    EffectHere(sys, known, s, heard, tid);
    hide Effects, MoneyOf, CalledHash, MovedUnder, DoubtUnder, WireAccepted, WireRefused, JobOk, RunningOk;
    var t := s.threads[tid];
    var s', heard' := EffectOf(sys, s, tid, t), heard + HeardNow(sys, s, EffectStep(tid));
    EffectRecords(sys, s, heard, tid);
    forall u | u in s'.threads && s'.threads[u].Running? ensures RunTrue(sys, s', heard', s'.threads[u]) {
      if u != tid {
        assert RunTrue(sys, s, heard, s.threads[u]);
        EffectElsewhere(sys, s, heard, tid, HashOf(sys, s.threads[u]));
      }
    }
    forall h | h in s'.ledger && h !in known ensures StateTrue(sys, s', heard', h, s'.ledger[h].state) {
      if h == HashOf(sys, t) {
        assert RunTrue(sys, s, heard, t);
      } else {
        EffectElsewhere(sys, s, heard, tid, h);
      }
    }
  }

  lemma EffectRecords(sys: System, s: State, heard: set<Answer>, tid: Tid)
    requires tid in s.threads && s.threads[tid].Running? && forall a :: a in heard ==> a.fp in s.calls
    requires s.threads[tid].done < |Effects(sys.codec, s.threads[tid].job.request, s.threads[tid].job.world)|
    ensures forall a :: a in heard + HeardNow(sys, s, EffectStep(tid))
              ==> a.fp in EffectOf(sys, s, tid, s.threads[tid]).calls
  {
    hide Effects, MoneyOf;
  }

  /** A thread leaves its row in a state that is true. */
  lemma LeaveTrue(sys: System, known: Ledger, s: State, s': State, heard: set<Answer>, tid: Tid)
    requires Safe(sys, s) && True(sys, known, s, heard)
    requires tid in s.threads && s.threads[tid].Running? && s'.calls == s.calls
    requires tid in s'.threads && !s'.threads[tid].Running?
    requires forall u :: u in s'.threads && u != tid ==> u in s.threads && s'.threads[u] == s.threads[u]
    requires s'.threads[tid].Gone? || s'.threads[tid].job == s.threads[tid].job
    requires var h := HashOf(sys, s.threads[tid]);
             && (h in s'.ledger ==> StateTrue(sys, s, heard, h, s'.ledger[h].state))
             && forall g :: g != h ==>
                  (g in s'.ledger <==> g in s.ledger) && (g in s.ledger ==> s'.ledger[g] == s.ledger[g])
    ensures True(sys, known, s', heard)
  {
    hide JobOk, MoneyOf, StateTrue, MovedUnder, DoubtUnder, CalledHash, RunningOk;
    forall u | u in s'.threads && s'.threads[u].Running? ensures RunTrue(sys, s', heard, s'.threads[u]) {
      assert RunTrue(sys, s, heard, s.threads[u]);
      assert HashOf(sys, s.threads[u]) != HashOf(sys, s.threads[tid]);
    }
    forall g | g in s'.ledger && g !in known ensures StateTrue(sys, s', heard, g, s'.ledger[g].state) {
      SameCallsTrue(sys, s, s', heard, g, s'.ledger[g].state);
    }
  }

  /** The state an execution ends in is true of what its run did. */
  lemma FinalStateTrue(sys: System, known: Ledger, s: State, heard: set<Answer>, t: Thread)
    requires t.Running? && RunningOk(sys, s, t) && RunTrue(sys, s, heard, t) && JobOk(t.job)
    requires t.done == |Effects(sys.codec, t.job.request, t.job.world)|
    requires Result(sys.codec, t.job.request, t.job.world).code != 400
    ensures StateTrue(sys, s, heard, HashOf(sys, t),
                      StateOf(Sanitize(sys.codec, Result(sys.codec, t.job.request, t.job.world))))
  {
    PersistedStateTruth(sys.codec, t.job.request, t.job.world);
    ClosedStatesMeanNoMoney(sys.codec, t.job.request, t.job.world);
    SettleOrNot(sys.codec, t.job.request, t.job.world);
    hide Effects, Result, MoneyOf, Sanitize, StateOf, MovedUnder, CalledHash, ProbeReturns, Supported;
  }

  /** An execution that made a settle call has passed it at its end, and one that did not never will. */
  lemma SettleOrNot(codec: Codec, req: Request, w: World)
    ensures |Effects(codec, req, w)| > 2 <==> !MoneyOf(codec, req, w).Untouched?
  {
    EffectsAreOrdered(ProgressOf(codec, req, w));
    MoneyAt(codec, req, w);
  }

  /** Finishing with an outcome whose state is true. */
  lemma FinishTrue(sys: System, known: Ledger, s: State, heard: set<Answer>, tid: Tid, o: Outcome, write: Write)
    requires Safe(sys, s) && True(sys, known, s, heard)
    requires tid in s.threads && s.threads[tid].Running? && Free(s, s.threads[tid].job.pid)
    requires o.code != 400 ==> StateTrue(sys, s, heard, HashOf(sys, s.threads[tid]), StateOf(Sanitize(sys.codec, o)))
    ensures True(sys, known, FinishOf(sys, s, tid, s.threads[tid].job, o, write), heard)
  {
    hide JobOk, MoneyOf, MovedUnder, DoubtUnder, CalledHash, FinishRam, Sanitize, Encode, StateOf, Safe, RunningOk;
    var s' := FinishOf(sys, s, tid, s.threads[tid].job, o, write);
    assert RunTrue(sys, s, heard, s.threads[tid]);
    LeaveTrue(sys, known, s, s', heard, tid);
  }

  lemma FinishStepTrue(sys: System, known: Ledger, s: State, heard: set<Answer>, tid: Tid, write: Write)
    requires Safe(sys, s) && True(sys, known, s, heard)
    requires tid in s.threads && s.threads[tid].Running? && Free(s, s.threads[tid].job.pid)
    requires s.threads[tid].done == |Effects(sys.codec, s.threads[tid].job.request, s.threads[tid].job.world)|
    ensures var job := s.threads[tid].job;
            True(sys, known, FinishOf(sys, s, tid, job, Result(sys.codec, job.request, job.world), write), heard)
  {
    hide JobOk, MoneyOf, MovedUnder, DoubtUnder, CalledHash, Effects, Result, FinishOf, StateTrue, RunningOk, StateOf,
         Sanitize;
    var t := s.threads[tid];
    assert RunTrue(sys, s, heard, t) && RunningOk(sys, s, t);
    var o := Result(sys.codec, t.job.request, t.job.world);
    if o.code != 400 { FinalStateTrue(sys, known, s, heard, t); }
    FinishTrue(sys, known, s, heard, tid, o, write);
  }

  lemma RaiseStepTrue(sys: System, known: Ledger, s: State, heard: set<Answer>, tid: Tid, write: Write)
    requires Safe(sys, s) && True(sys, known, s, heard)
    requires tid in s.threads && s.threads[tid].Running? && Free(s, s.threads[tid].job.pid)
    ensures True(sys, known, FinishOf(sys, s, tid, s.threads[tid].job, Refusal(s.threads[tid].job), write), heard)
  {
    hide MoneyOf, MovedUnder, DoubtUnder, CalledHash, FinishOf, RunningOk, StateOf, Sanitize, ProbeReturns, Supported;
    RaisedIsUnknown(sys.codec, s.threads[tid].job.request.rail);
    FinishTrue(sys, known, s, heard, tid, Refusal(s.threads[tid].job), write);
  }

  lemma AbandonTrue(sys: System, known: Ledger, s: State, heard: set<Answer>, tid: Tid, write: Write)
    requires Safe(sys, s) && True(sys, known, s, heard)
    requires tid in s.threads && s.threads[tid].Running? && Free(s, s.threads[tid].job.pid)
    ensures True(sys, known, AbandonOf(sys, s, tid, s.threads[tid].job, write), heard)
  {
    hide JobOk, MoneyOf, MovedUnder, DoubtUnder, CalledHash, Safe, RunningOk;
    assert RunTrue(sys, s, heard, s.threads[tid]);
    LeaveTrue(sys, known, s, AbandonOf(sys, s, tid, s.threads[tid].job, write), heard, tid);
  }

  lemma CheckTrue(sys: System, known: Ledger, s: State, heard: set<Answer>, tid: Tid, io: Io)
    requires True(sys, known, s, heard)
    requires tid in s.threads && s.threads[tid].Starting? && Free(s, s.threads[tid].job.pid)
    ensures True(sys, known, CheckOf(sys, s, tid, s.threads[tid].job, io), heard)
  {
    hide CheckOf, PrunedRam, JobOk, RunTrue, StateTrue;
    CheckChanges(sys, s, tid, s.threads[tid].job, io);
    QuietTrue(sys, known, s, CheckOf(sys, s, tid, s.threads[tid].job, io), heard);
  }

  lemma WakeTrue(sys: System, known: Ledger, s: State, heard: set<Answer>, tid: Tid)
    requires True(sys, known, s, heard)
    requires tid in s.threads && s.threads[tid].Waiting? && s.threads[tid].eid < |s.entries|
    ensures True(sys, known, WakeOf(s, tid, s.threads[tid].job, s.threads[tid].eid), heard)
  {
    hide WakeOf, JobOk, RunTrue, StateTrue;
    WakeChanges(s, tid, s.threads[tid].job, s.threads[tid].eid);
    QuietTrue(sys, known, s, WakeOf(s, tid, s.threads[tid].job, s.threads[tid].eid), heard);
  }

  lemma BootTrue(sys: System, known: Ledger, s: State, heard: set<Answer>, pid: Pid)
    requires True(sys, known, s, heard)
    ensures True(sys, known, BootOf(s, pid), heard)
  {
    hide JobOk, RunTrue, StateTrue;
    QuietTrue(sys, known, s, BootOf(s, pid), heard);
  }

  lemma StepTrue(sys: System, known: Ledger, s: State, heard: set<Answer>, step: Step)
    requires Safe(sys, s) && True(sys, known, s, heard) && (step.Arrive? ==> JobOk(step.job))
    ensures True(sys, known, Apply(sys, s, step), heard + HeardNow(sys, s, step))
  {
    hide Effects, Result, Refusal, FinishOf, ReserveOf, EffectOf, CheckOf, AbandonOf, WakeOf, BootOf, Safe, True,
         RunTrue, StateTrue, JobOk, MoneyOf;
    var s' := Apply(sys, s, step);
    assert heard + {} == heard;
    match step
    case Boot(pid) => BootTrue(sys, known, s, heard, pid);
    case CheckStep(tid, io) => if s' != s { CheckTrue(sys, known, s, heard, tid, io); }
    case ReserveStep(tid, io) => if s' != s { ReserveTrue(sys, known, s, heard, tid, s.threads[tid].job, io); }
    case EffectStep(tid) =>
      if tid in s.threads && s.threads[tid].Running?
         && s.threads[tid].done < |Effects(sys.codec, s.threads[tid].job.request, s.threads[tid].job.world)| {
        EffectTrue(sys, known, s, heard, tid);
      }
    case FinishStep(tid, write) => if s' != s { FinishStepTrue(sys, known, s, heard, tid, write); }
    case RaiseStep(tid, write) => if s' != s { RaiseStepTrue(sys, known, s, heard, tid, write); }
    case AbandonStep(tid, write) => if s' != s { AbandonTrue(sys, known, s, heard, tid, write); }
    case WakeStep(tid) => if s' != s { WakeTrue(sys, known, s, heard, tid); }
    case _ => LocalTrue(sys, known, s, heard, step);
  }

  lemma LocalTrue(sys: System, known: Ledger, s: State, heard: set<Answer>, step: Step)
    requires True(sys, known, s, heard) && (step.Arrive? ==> JobOk(step.job))
    requires step.Tick? || step.Arrive? || step.DieStep?
    ensures True(sys, known, Apply(sys, s, step), heard)
  {
    hide JobOk, RunTrue, StateTrue, Supported, Effects;
    QuietTrue(sys, known, s, Apply(sys, s, step), heard);
  }

  lemma {:induction false} RunsAreTrue(sys: System, ledger: Ledger, steps: seq<Step>)
    requires Probed(steps)
    ensures True(sys, ledger, Exec(sys, Init(ledger), steps), HeardIn(sys, ledger, steps))
    decreases |steps|
  {
    hide True, Safe, Apply, HeardNow, JobOk;
    if steps == [] {
      NothingIsTrue(sys, ledger);
    } else {
      var k := |steps| - 1;
      RunsAreTrue(sys, ledger, steps[..k]);
      RunsAreSafe(sys, ledger, steps[..k]);
      StepTrue(sys, ledger, Exec(sys, Init(ledger), steps[..k]), HeardIn(sys, ledger, steps[..k]), steps[k]);
    }
  }

  lemma NothingIsTrue(sys: System, ledger: Ledger)
    ensures True(sys, ledger, Init(ledger), {})
  {
  }

  /** Over every run, for a hash that is not in the ledger when it starts: a closed row says settled exactly
      when a settle call under it was accepted on the wire, rejected only when each one was literally refused,
      and not settled only when the facilitator was never asked. While money has moved, the row is there and
      says settled or is still open; after an answer that was lost or unclear it is there and stays open. */
  lemma LedgerTellsWhatMoved(sys: System, ledger: Ledger, steps: seq<Step>, h: Hash)
    requires Probed(steps) && h !in ledger
    ensures var s, heard := Exec(sys, Init(ledger), steps), HeardIn(sys, ledger, steps);
            && (h in s.ledger && Terminal(s.ledger[h].state) ==>
                  && (s.ledger[h].state.Settled? <==> MovedUnder(sys, heard, h))
                  && (s.ledger[h].state.Rejected? ==>
                       forall a :: a in heard && sys.hash(a.fp) == h ==> WireRefused(a.settle))
                  && (s.ledger[h].state.NotSettled? ==> !CalledHash(sys, s, h)))
            && (MovedUnder(sys, heard, h) ==>
                  h in s.ledger && (s.ledger[h].state.Settled? || NonTerminal(s.ledger[h].state)))
            && (DoubtUnder(sys, heard, h) ==> h in s.ledger && NonTerminal(s.ledger[h].state))
  {
    hide Exec, HeardIn, Probed, JobOk, RunTrue, CalledHash, WireAccepted, WireRefused;
    RunsAreTrue(sys, ledger, steps);
    RunsAreSafe(sys, ledger, steps);
    var s, heard := Exec(sys, Init(ledger), steps), HeardIn(sys, ledger, steps);
    NothingHeardYet(sys, s, heard, h);
    if MovedUnder(sys, heard, h) || DoubtUnder(sys, heard, h) { HeardIsCalled(sys, s, heard, h); }
  }
}
