/** All ways of hearing about a finished authorization give the same answer, in every run:
    the owner's answer once sanitized, a waiter's result, a RAM hit and a ledger read. */
module ReplayAgreement {
  import opened Collections
  import opened Json
  import opened Outcomes
  import opened PaidRoute
  import opened Replay
  import opened ReplayProtocol

  /** A running thread owns its pending row and its in-flight entry. */
  ghost predicate OwnerOk(sys: System, s: State, t: Thread)
    requires t.Running?
  {
    var h := HashOf(sys, t);
    && h in s.ledger && s.ledger[h] == Row(Pending, None, VERSION, t.job.scope)
    && t.job.pid in s.rams && t.job.fp in s.rams[t.job.pid].inflight
    && s.rams[t.job.pid].inflight[t.job.fp] == Slot(t.eid, t.job.scope)
    && t.job.fp !in s.published
  }

  /** An in-flight entry stands for a row without an outcome and for no other process's thread. */
  ghost predicate SlotOk(sys: System, s: State, pid: Pid, fp: Fingerprint)
    requires pid in s.rams && fp in s.rams[pid].inflight
  {
    var slot := s.rams[pid].inflight[fp];
    && slot.entry < |s.entries| && s.entries[slot.entry].fp == fp
    && sys.hash(fp) in s.ledger && s.ledger[sys.hash(fp)].outcome == None
    && (forall t :: t in s.threads && s.threads[t].Running? && HashOf(sys, s.threads[t]) == sys.hash(fp) ==>
          s.threads[t].job.pid == pid && s.threads[t].job.fp == fp)
  }

  ghost predicate KeptOk(sys: System, s: State, x: Item<Fingerprint, Kept>) {
    && x.key in s.published && x.value.outcome == s.published[x.key]
    && sys.hash(x.key) in s.ledger && s.ledger[sys.hash(x.key)].version == VERSION
    && s.ledger[sys.hash(x.key)].scope == x.value.scope
  }

  ghost predicate IsPublished(s: State, fp: Fingerprint, o: Outcome) {
    o.code == 400 || (fp in s.published && s.published[fp] == o)
  }

  /** What was published is sanitized, and its row holds that outcome or, after a lost write, none. */
  ghost predicate PublishedOk(sys: System, s: State, fp: Fingerprint)
    requires fp in s.published
  {
    var o := s.published[fp];
    && Sanitize(sys.codec, o) == o
    && sys.hash(fp) in s.ledger
    && (var row := s.ledger[sys.hash(fp)];
        row.version == VERSION
        && (row.outcome == None || (row.outcome == Some(Encode(sys.codec, o)) && row.state == StateOf(o))))
    && (forall t :: t in s.threads && s.threads[t].Running? ==> HashOf(sys, s.threads[t]) != sys.hash(fp))
  }

  ghost predicate LedgerAnswer(sys: System, s: State, fp: Fingerprint, o: Outcome) {
    if fp in s.published then s.published[fp] == o
    else sys.hash(fp) in s.ledger && Readable(sys.codec, s.ledger[sys.hash(fp)]) == Some(o)
  }

  ghost predicate AnswerOk(sys: System, s: State, t: Thread)
    requires t.Answered?
  {
    match t.how
    case Owner => IsPublished(s, t.job.fp, Sanitize(sys.codec, t.outcome))
    case FromWait => IsPublished(s, t.job.fp, t.outcome)
    case FromCache(FromRam) => IsPublished(s, t.job.fp, t.outcome)
    case FromCache(FromLedger) => LedgerAnswer(sys, s, t.job.fp, t.outcome)
    case _ => true
  }

  ghost predicate ThreadOk(sys: System, s: State, t: Thread) {
    match t
    case Running(_, _, _) => OwnerOk(sys, s, t)
    case Waiting(job, eid) => eid < |s.entries| && s.entries[eid].fp == job.fp
    case Answered(_, _, _) => AnswerOk(sys, s, t)
    case _ => true
  }

  ghost predicate ThreadsOk(sys: System, s: State) {
    forall t :: t in s.threads ==> ThreadOk(sys, s, s.threads[t])
  }

  ghost predicate SlotsOk(sys: System, s: State) {
    forall pid, fp :: pid in s.rams && fp in s.rams[pid].inflight ==> SlotOk(sys, s, pid, fp)
  }

  ghost predicate KeptsOk(sys: System, s: State) {
    forall pid, x :: pid in s.rams && x in s.rams[pid].completed ==> KeptOk(sys, s, x)
  }

  ghost predicate EntriesOk(s: State) {
    forall e :: 0 <= e < |s.entries| && s.entries[e].result.Some? ==>
      IsPublished(s, s.entries[e].fp, s.entries[e].result.value)
  }

  ghost predicate AllPublishedOk(sys: System, s: State) {
    forall fp :: fp in s.published ==> PublishedOk(sys, s, fp)
  }

  ghost predicate Agreed(sys: System, s: State) {
    ThreadsOk(sys, s) && SlotsOk(sys, s) && KeptsOk(sys, s) && EntriesOk(s) && AllPublishedOk(sys, s)
  }

  /** A row with an outcome is only ever read. */
  lemma ReadableHasOutcome(codec: Codec, row: Row)
    requires Readable(codec, row).Some?
    ensures row.outcome.Some? && Decode(codec, row.outcome.value) == Readable(codec, row)
  {
  }

  /** A published row reads back as the published outcome. */
  lemma PublishedReads(sys: System, s: State, fp: Fingerprint)
    requires sys.codec.Inverse()
    requires fp in s.published && PublishedOk(sys, s, fp) && s.ledger[sys.hash(fp)].outcome.Some?
    ensures Readable(sys.codec, s.ledger[sys.hash(fp)]) == Some(s.published[fp])
  {
    hide Decode, Sanitize, HashOf;
    DecodeEncode(sys.codec, s.published[fp]);
  }

  /** The reads of begin() answer what the invariant allows. */
  lemma CheckAgrees(sys: System, s: State, tid: Tid, job: Job, io: Io, ram: Ram<Eid>, now: real)
    requires sys.codec.Inverse() && Agreed(sys, s) && job.pid in s.rams
    requires ram.inflight == s.rams[job.pid].inflight
    requires forall x :: x in ram.completed ==> x in s.rams[job.pid].completed
    ensures match Check(sys.codec, sys.hash, ram, s.ledger, io, job.fp, job.legacy, job.scope, now)
            case Replayed(source, o) => AnswerOk(sys, s, Answered(job, FromCache(source), o))
            case Wait(eid) => eid < |s.entries| && s.entries[eid].fp == job.fp
            case _ => true
  {
    hide Decode, Encode, Sanitize, StateOf, ExplicitState;
    var verdict := Check(sys.codec, sys.hash, ram, s.ledger, io, job.fp, job.legacy, job.scope, now);
    if verdict.Wait? {
      assert SlotOk(sys, s, job.pid, job.fp);
    } else if verdict.Replayed? && verdict.source.FromRam? {
      var x := Item(job.fp, Get(ram.completed, job.fp).value);
      assert x in s.rams[job.pid].completed && KeptOk(sys, s, x);
    } else if verdict.Replayed? && verdict.source.FromLedger? {
      var row := s.ledger[sys.hash(job.fp)];
      assert Readable(sys.codec, row) == Some(verdict.outcome);
      ReadableHasOutcome(sys.codec, row);
      if job.fp in s.published {
        assert PublishedOk(sys, s, job.fp);
        PublishedReads(sys, s, job.fp);
      }
    }
  }

  /** Steps that write neither the ledger nor the entries, and publish nothing. */
  lemma FrameAgrees(sys: System, s: State, s': State)
    requires Agreed(sys, s)
    requires s'.ledger == s.ledger && s'.published == s.published && s'.entries == s.entries
    requires forall t :: t in s'.threads && s'.threads[t].Running? ==>
               && t in s.threads && s.threads[t].Running?
               && s.threads[t].job == s'.threads[t].job && s.threads[t].eid == s'.threads[t].eid
               && s'.threads[t].job.pid in s'.rams
               && s'.rams[s'.threads[t].job.pid].inflight == s.rams[s'.threads[t].job.pid].inflight
    requires forall t :: t in s'.threads && !s'.threads[t].Running? ==>
               (t in s.threads && s.threads[t] == s'.threads[t]) || ThreadOk(sys, s, s'.threads[t])
    requires forall pid :: pid in s'.rams ==>
               s'.rams[pid] == Ram(map[], []) ||
               (pid in s.rams && s'.rams[pid].inflight == s.rams[pid].inflight
                && forall x :: x in s'.rams[pid].completed ==> x in s.rams[pid].completed)
    ensures Agreed(sys, s')
  {
    hide Readable, Encode, Sanitize, StateOf;
    forall t | t in s'.threads ensures ThreadOk(sys, s', s'.threads[t]) {
      if t in s.threads { assert ThreadOk(sys, s, s.threads[t]); }
    }
    forall pid, fp | pid in s'.rams && fp in s'.rams[pid].inflight ensures SlotOk(sys, s', pid, fp) {
      assert SlotOk(sys, s, pid, fp);
    }
    forall pid, x | pid in s'.rams && x in s'.rams[pid].completed ensures KeptOk(sys, s', x) {
      assert KeptOk(sys, s, x);
    }
    forall fp | fp in s'.published ensures PublishedOk(sys, s', fp) {
      assert PublishedOk(sys, s, fp);
    }
  }

  lemma RefusalIsOk(sys: System, s: State, job: Job)
    ensures ThreadOk(sys, s, Answered(job, FromRefusal, Refusal(job)))
  {
  }

  /** A refused reservation that wrote nothing. */
  lemma RefusedReserveAgrees(sys: System, s: State, tid: Tid, job: Job, io: Io)
    requires Agreed(sys, s) && job.pid in s.rams && tid in s.threads && s.threads[tid] == Reserving(job)
    requires Reserve(s.ledger, sys.hash(job.fp), job.scope, io) == (s.ledger, false)
    ensures Agreed(sys, ReserveOf(sys, s, tid, job, io))
  {
    hide Agreed, ThreadOk, Refusal;
    OwnersHaveRamsAlways(sys, s);
    RefusalIsOk(sys, s, job);
    FrameAgrees(sys, s, ReserveOf(sys, s, tid, job, io));
  }

  /** s' is s with a new pending row at a hash that had none, and perhaps its owner's thread. */
  ghost predicate RowAdded(sys: System, s: State, s': State, tid: Tid, job: Job) {
    var h := sys.hash(job.fp);
    && h !in s.ledger && s'.ledger == s.ledger[h := Row(Pending, None, VERSION, job.scope)]
    && s'.published == s.published && s.entries <= s'.entries
    && (forall e :: |s.entries| <= e < |s'.entries| ==> s'.entries[e] == EntryState(job.fp, false, None))
    && tid in s'.threads
    && (forall t :: t in s'.threads && t != tid ==> t in s.threads && s'.threads[t] == s.threads[t])
    && job.pid in s.rams && s'.rams.Keys == s.rams.Keys
    && (forall pid :: pid in s.rams ==> s'.rams[pid].completed == s.rams[pid].completed)
    && (if s'.threads[tid].Running? then
          && s'.threads[tid] == Running(job, |s.entries|, 0) && |s'.entries| == |s.entries| + 1
          && s'.rams[job.pid].inflight == s.rams[job.pid].inflight[job.fp := Slot(|s.entries|, job.scope)]
          && (forall pid :: pid in s.rams && pid != job.pid ==> s'.rams[pid] == s.rams[pid])
        else s'.threads[tid] == Answered(job, FromRefusal, Refusal(job)) && s'.rams == s.rams)
  }

  lemma ReserveAddsRow(sys: System, s: State, tid: Tid, job: Job, io: Io)
    requires job.pid in s.rams && tid in s.threads && s.threads[tid] == Reserving(job)
    requires Reserve(s.ledger, sys.hash(job.fp), job.scope, io) != (s.ledger, false)
    ensures RowAdded(sys, s, ReserveOf(sys, s, tid, job, io), tid, job)
  {
    hide Refusal;
  }

  lemma UnknownIsUnpublished(sys: System, s: State, fp: Fingerprint)
    requires AllPublishedOk(sys, s)
    ensures sys.hash(fp) !in s.ledger ==> fp !in s.published
  {
    hide Readable, Encode, Sanitize, StateOf;
  }

  lemma AddedRowThreads(sys: System, s: State, s': State, tid: Tid, job: Job)
    requires Agreed(sys, s) && RowAdded(sys, s, s', tid, job)
    ensures ThreadsOk(sys, s')
  {
    hide Readable, Encode, Sanitize, StateOf, Refusal;
    forall t | t in s'.threads ensures ThreadOk(sys, s', s'.threads[t]) {
      if t != tid {
        assert ThreadOk(sys, s, s.threads[t]);
      } else if s'.threads[tid].Running? {
        UnknownIsUnpublished(sys, s, job.fp);
      }
    }
  }

  lemma ThreadIsOk(sys: System, s: State, t: Tid)
    requires Agreed(sys, s) && t in s.threads
    ensures ThreadOk(sys, s, s.threads[t])
  {
    hide ThreadOk;
  }

  lemma SlotIsOk(sys: System, s: State, pid: Pid, fp: Fingerprint)
    requires Agreed(sys, s) && pid in s.rams && fp in s.rams[pid].inflight
    ensures SlotOk(sys, s, pid, fp)
  {
    hide SlotOk;
  }

  /** A running thread under this hash means that its row is there. */
  lemma RunningHasRow(sys: System, s: State, t: Tid, h: Hash)
    requires Agreed(sys, s) && t in s.threads && s.threads[t].Running? && HashOf(sys, s.threads[t]) == h
    ensures h in s.ledger
  {
    ThreadIsOk(sys, s, t);
    hide Agreed;
  }

  /** One slot after a row was added: an old one, or that of the new row. */
  lemma AddedRowSlot(sys: System, s: State, s': State, tid: Tid, job: Job, pid: Pid, fp: Fingerprint)
    requires Agreed(sys, s) && RowAdded(sys, s, s', tid, job) && pid in s'.rams && fp in s'.rams[pid].inflight
    ensures SlotOk(sys, s', pid, fp)
  {
    hide Agreed, Readable, Encode, Sanitize, StateOf, Refusal;
    if fp in s.rams[pid].inflight { SlotIsOk(sys, s, pid, fp); }
    forall t | t in s'.threads && s'.threads[t].Running? && HashOf(sys, s'.threads[t]) == sys.hash(fp)
      ensures s'.threads[t].job.pid == pid && s'.threads[t].job.fp == fp
    {
      if t != tid { RunningHasRow(sys, s, t, sys.hash(fp)); }
    }
  }

  lemma AddedRowSlots(sys: System, s: State, s': State, tid: Tid, job: Job)
    requires Agreed(sys, s) && RowAdded(sys, s, s', tid, job)
    ensures SlotsOk(sys, s')
  {
    hide Agreed, RowAdded, SlotOk;
    forall pid, fp | pid in s'.rams && fp in s'.rams[pid].inflight ensures SlotOk(sys, s', pid, fp) {
      AddedRowSlot(sys, s, s', tid, job, pid, fp);
    }
  }

  lemma AddedRowRest(sys: System, s: State, s': State, tid: Tid, job: Job)
    requires Agreed(sys, s) && RowAdded(sys, s, s', tid, job)
    ensures KeptsOk(sys, s') && EntriesOk(s') && AllPublishedOk(sys, s')
  {
    hide Readable, Encode, Sanitize, StateOf, Refusal, ThreadsOk, SlotsOk;
    forall pid, x | pid in s'.rams && x in s'.rams[pid].completed ensures KeptOk(sys, s', x) {
      assert KeptOk(sys, s, x);
    }
    forall fp | fp in s'.published ensures PublishedOk(sys, s', fp) { assert PublishedOk(sys, s, fp); }
  }

  lemma ReserveAgrees(sys: System, s: State, tid: Tid, job: Job, io: Io)
    requires Agreed(sys, s) && job.pid in s.rams && tid in s.threads && s.threads[tid] == Reserving(job)
    ensures Agreed(sys, ReserveOf(sys, s, tid, job, io))
  {
    hide ReserveOf, RowAdded, ThreadsOk, SlotsOk, KeptsOk, EntriesOk, AllPublishedOk;
    if Reserve(s.ledger, sys.hash(job.fp), job.scope, io) == (s.ledger, false) {
      RefusedReserveAgrees(sys, s, tid, job, io);
    } else {
      var s' := ReserveOf(sys, s, tid, job, io);
      ReserveAddsRow(sys, s, tid, job, io);
      AddedRowThreads(sys, s, s', tid, job);
      AddedRowSlots(sys, s, s', tid, job);
      AddedRowRest(sys, s, s', tid, job);
    }
  }

  /** The owner's row, entry and slot are its alone. */
  lemma OwnerAlone(sys: System, s: State, tid: Tid)
    requires Safe(sys, s) && Agreed(sys, s)
    requires tid in s.threads && s.threads[tid].Running?
    ensures var job := s.threads[tid].job;
            var h := sys.hash(job.fp);
            && OwnerOk(sys, s, s.threads[tid]) && s.threads[tid].eid < |s.entries|
            && s.entries[s.threads[tid].eid].fp == job.fp
            && (forall u :: u in s.threads && u != tid && s.threads[u].Running? ==> HashOf(sys, s.threads[u]) != h)
            && (forall fp :: fp in s.published ==> sys.hash(fp) != h)
            && (forall pid, fp :: pid in s.rams && fp in s.rams[pid].inflight && sys.hash(fp) == h ==>
                  pid == job.pid && fp == job.fp)
  {
    var t := s.threads[tid];
    assert ThreadOk(sys, s, t);
    assert SlotOk(sys, s, t.job.pid, t.job.fp);
    forall fp | fp in s.published ensures sys.hash(fp) != sys.hash(t.job.fp) { assert PublishedOk(sys, s, fp); }
    forall pid, fp | pid in s.rams && fp in s.rams[pid].inflight && sys.hash(fp) == sys.hash(t.job.fp)
      ensures pid == t.job.pid && fp == t.job.fp
    {
      assert SlotOk(sys, s, pid, fp);
    }
  }

  /** A row without an outcome has answered nobody. */
  lemma NoOutcomeAnsweredNobody(sys: System, s: State, t: Thread, h: Hash)
    requires t.Answered? && AnswerOk(sys, s, t) && t.how == FromCache(FromLedger)
    requires h in s.ledger && s.ledger[h].outcome == None
    ensures t.job.fp in s.published || sys.hash(t.job.fp) != h
  {
  }

  /** s' is s after the owner of h left: its slot is gone, its row is changed or removed,
      and `safe`, if any, is what was published for it. */
  ghost predicate OwnerLeft(sys: System, s: State, s': State, tid: Tid, job: Job) {
    var h := sys.hash(job.fp);
    && (forall g :: g != h ==> (g in s.ledger <==> g in s'.ledger) && (g in s.ledger ==> s'.ledger[g] == s.ledger[g]))
    && (forall fp :: fp != job.fp ==> (fp in s.published <==> fp in s'.published)
                                      && (fp in s.published ==> s'.published[fp] == s.published[fp]))
    && tid in s'.threads && !s'.threads[tid].Running? && !s'.threads[tid].Waiting?
    && (forall t :: t in s'.threads && t != tid ==> t in s.threads && s'.threads[t] == s.threads[t])
    && |s'.entries| == |s.entries| && (forall e :: 0 <= e < |s.entries| ==> s'.entries[e].fp == s.entries[e].fp)
    && job.pid in s.rams && s'.rams.Keys == s.rams.Keys
    && s'.rams[job.pid].inflight == s.rams[job.pid].inflight - {job.fp}
    && (forall pid :: pid in s.rams && pid != job.pid ==> s'.rams[pid] == s.rams[pid])
  }

  /** Another thread after the owner left. */
  lemma LeftThread(sys: System, s: State, s': State, tid: Tid, job: Job, t: Tid)
    requires Safe(sys, s) && Agreed(sys, s) && OwnerLeft(sys, s, s', tid, job)
    requires tid in s.threads && s.threads[tid].Running? && s.threads[tid].job == job
    requires t in s'.threads && t != tid
    ensures ThreadOk(sys, s', s'.threads[t])
  {
    hide Agreed, Readable, Encode, Sanitize, StateOf, Safe;
    OwnerAlone(sys, s, tid);
    ThreadIsOk(sys, s, t);
    if s.threads[t].Answered? && s.threads[t].how == FromCache(FromLedger) {
      NoOutcomeAnsweredNobody(sys, s, s.threads[t], sys.hash(job.fp));
    }
  }

  lemma LeftThreads(sys: System, s: State, s': State, tid: Tid, job: Job)
    requires Safe(sys, s) && Agreed(sys, s) && OwnerLeft(sys, s, s', tid, job)
    requires tid in s.threads && s.threads[tid].Running? && s.threads[tid].job == job
    requires ThreadOk(sys, s', s'.threads[tid])
    ensures ThreadsOk(sys, s')
  {
    hide ThreadOk, Safe, Agreed, OwnerLeft;
    forall t | t in s'.threads ensures ThreadOk(sys, s', s'.threads[t]) {
      if t != tid { LeftThread(sys, s, s', tid, job, t); }
    }
  }

  lemma LeftSlots(sys: System, s: State, s': State, tid: Tid, job: Job)
    requires Safe(sys, s) && Agreed(sys, s) && OwnerLeft(sys, s, s', tid, job)
    requires tid in s.threads && s.threads[tid].Running? && s.threads[tid].job == job
    ensures SlotsOk(sys, s')
  {
    hide Readable, Encode, Sanitize, StateOf, Safe, ThreadOk;
    OwnerAlone(sys, s, tid);
    forall pid, fp | pid in s'.rams && fp in s'.rams[pid].inflight ensures SlotOk(sys, s', pid, fp) {
      assert SlotOk(sys, s, pid, fp);
    }
  }

  /** What was kept or published before is untouched: none of it is under the owner's hash. */
  lemma LeftOthers(sys: System, s: State, s': State, tid: Tid, job: Job)
    requires Safe(sys, s) && Agreed(sys, s) && OwnerLeft(sys, s, s', tid, job)
    requires tid in s.threads && s.threads[tid].Running? && s.threads[tid].job == job
    ensures forall pid, x :: pid in s.rams && x in s.rams[pid].completed ==> KeptOk(sys, s', x)
    ensures forall fp :: fp in s.published ==> fp in s'.published && PublishedOk(sys, s', fp)
    ensures forall fp, o :: IsPublished(s, fp, o) ==> IsPublished(s', fp, o)
  {
    hide Readable, Encode, Sanitize, StateOf, Safe, ThreadOk;
    OwnerAlone(sys, s, tid);
    forall pid, x | pid in s.rams && x in s.rams[pid].completed ensures KeptOk(sys, s', x) {
      assert KeptOk(sys, s, x);
    }
    forall fp | fp in s.published ensures fp in s'.published && PublishedOk(sys, s', fp) {
      assert PublishedOk(sys, s, fp);
    }
  }

  lemma FinishLeaves(sys: System, s: State, tid: Tid, job: Job, o: Outcome, write: Write)
    requires Agreed(sys, s) && Free(s, job.pid)
    requires tid in s.threads && s.threads[tid].Running? && s.threads[tid].job == job
    ensures OwnerLeft(sys, s, FinishOf(sys, s, tid, job, o, write), tid, job)
  {
    hide Encode, Sanitize, StateOf, Pruned, Agreed;
  }

  lemma FinishAgrees(sys: System, s: State, tid: Tid, job: Job, o: Outcome, write: Write)
    requires sys.codec.Inverse()
    requires Safe(sys, s) && Agreed(sys, s) && Free(s, job.pid)
    requires tid in s.threads && s.threads[tid].Running? && s.threads[tid].job == job
    ensures Agreed(sys, FinishOf(sys, s, tid, job, o, write))
  {
    hide Safe, ThreadsOk, SlotsOk, KeptsOk, EntriesOk, AllPublishedOk, OwnerLeft, FinishOf;
    var s' := FinishOf(sys, s, tid, job, o, write);
    FinishLeaves(sys, s, tid, job, o, write);
    FinishedThread(sys, s, tid, job, o, write);
    LeftThreads(sys, s, s', tid, job);
    LeftSlots(sys, s, s', tid, job);
    FinishedRest(sys, s, tid, job, o, write);
  }

  lemma FinishedThread(sys: System, s: State, tid: Tid, job: Job, o: Outcome, write: Write)
    requires Free(s, job.pid)
    ensures var s' := FinishOf(sys, s, tid, job, o, write);
            s'.threads[tid] == Answered(job, Owner, o) && ThreadOk(sys, s', s'.threads[tid])
  {
    hide Encode, Sanitize, StateOf, Pruned, FinishRow, FinishRam;
  }

  lemma FinishedRest(sys: System, s: State, tid: Tid, job: Job, o: Outcome, write: Write)
    requires sys.codec.Inverse()
    requires Safe(sys, s) && Agreed(sys, s) && Free(s, job.pid)
    requires tid in s.threads && s.threads[tid].Running? && s.threads[tid].job == job
    ensures var s' := FinishOf(sys, s, tid, job, o, write); KeptsOk(sys, s') && EntriesOk(s') && AllPublishedOk(sys, s')
  {
    hide Encode, Sanitize, StateOf, Safe, ThreadsOk, SlotsOk, OwnerLeft, Pruned;
    var s' := FinishOf(sys, s, tid, job, o, write);
    var safe := Sanitize(sys.codec, o);
    SanitizeIdempotent(sys.codec, o);
    OwnerAlone(sys, s, tid);
    FinishLeaves(sys, s, tid, job, o, write);
    LeftOthers(sys, s, s', tid, job);
    assert o.code != 400 ==> PublishedOk(sys, s', job.fp);
    assert o.code != 400 ==> KeptOk(sys, s', Item(job.fp, Kept.Kept(s.clocks[job.pid] + TTL, job.scope, safe)));
  }

  lemma AbandonAgrees(sys: System, s: State, tid: Tid, job: Job, write: Write)
    requires Safe(sys, s) && Agreed(sys, s) && Free(s, job.pid)
    requires tid in s.threads && s.threads[tid].Running? && s.threads[tid].job == job
    ensures Agreed(sys, AbandonOf(sys, s, tid, job, write))
  {
    hide Readable, Encode, Sanitize, StateOf, Safe, ThreadsOk, SlotsOk;
    var s' := AbandonOf(sys, s, tid, job, write);
    OwnerAlone(sys, s, tid);
    assert OwnerLeft(sys, s, s', tid, job);
    LeftThreads(sys, s, s', tid, job);
    LeftSlots(sys, s, s', tid, job);
    LeftOthers(sys, s, s', tid, job);
  }

  /** One thread moves on and kept outcomes may expire; nothing else that matters here changes. */
  lemma OneThreadAgrees(sys: System, s: State, s': State, tid: Tid)
    requires Agreed(sys, s)
    requires s'.ledger == s.ledger && s'.published == s.published && s'.entries == s.entries
    requires s'.rams.Keys == s.rams.Keys
    requires forall pid :: pid in s.rams ==>
               s'.rams[pid].inflight == s.rams[pid].inflight
               && forall x :: x in s'.rams[pid].completed ==> x in s.rams[pid].completed
    requires tid in s'.threads && s'.threads == s.threads[tid := s'.threads[tid]]
    requires if s'.threads[tid].Running? then
               tid in s.threads && s.threads[tid].Running?
               && s.threads[tid].job == s'.threads[tid].job && s.threads[tid].eid == s'.threads[tid].eid
             else ThreadOk(sys, s, s'.threads[tid])
    ensures Agreed(sys, s')
  {
    hide Agreed, ThreadOk;
    OwnersHaveRamsAlways(sys, s);
    FrameAgrees(sys, s, s');
  }

  lemma PrunedRamKeeps(s: State, pid: Pid)
    requires pid in s.rams && pid in s.clocks
    ensures PrunedRam(s, pid).inflight == s.rams[pid].inflight
    ensures forall x :: x in PrunedRam(s, pid).completed ==> x in s.rams[pid].completed
  {
    hide Pruned;
  }

  lemma CheckStepAgrees(sys: System, s: State, tid: Tid, job: Job, io: Io)
    requires sys.codec.Inverse() && Agreed(sys, s) && Free(s, job.pid)
    requires tid in s.threads && s.threads[tid] == Starting(job)
    ensures Agreed(sys, CheckOf(sys, s, tid, job, io))
  {
    hide Check, PrunedRam, Follow, Refusal, Agreed, AnswerOk;
    var now := s.clocks[job.pid];
    var ram := PrunedRam(s, job.pid);
    PrunedRamKeeps(s, job.pid);
    CheckAgrees(sys, s, tid, job, io, ram, now);
    FollowChanges(s.(rams := s.rams[job.pid := ram]), tid, job,
                  Check(sys.codec, sys.hash, ram, s.ledger, io, job.fp, job.legacy, job.scope, now));
    RefusalIsOk(sys, s, job);
    OneThreadAgrees(sys, s, CheckOf(sys, s, tid, job, io), tid);
  }

  lemma WaiterIsOk(sys: System, s: State, job: Job, eid: Eid)
    requires Agreed(sys, s) && eid < |s.entries| && s.entries[eid].fp == job.fp && s.entries[eid].result.Some?
    ensures ThreadOk(sys, s, Answered(job, FromWait, s.entries[eid].result.value))
  {
  }

  lemma WakeAgrees(sys: System, s: State, tid: Tid, job: Job, eid: Eid)
    requires Agreed(sys, s) && tid in s.threads && s.threads[tid] == Thread.Waiting(job, eid) && eid < |s.entries|
    ensures Agreed(sys, WakeOf(s, tid, job, eid))
  {
    hide Refusal, SlotsOk, KeptsOk, AllPublishedOk, EntriesOk, AnswerOk;
    assert ThreadOk(sys, s, s.threads[tid]);
    if s.entries[eid].result.Some? { WaiterIsOk(sys, s, job, eid); }
    RefusalIsOk(sys, s, job);
    OneThreadAgrees(sys, s, WakeOf(s, tid, job, eid), tid);
  }

  lemma BootAgrees(sys: System, s: State, pid: Pid)
    requires Agreed(sys, s)
    ensures Agreed(sys, BootOf(s, pid))
  {
    hide Agreed, ThreadOk;
    assert OwnersHaveRams(sys, s) by { OwnersHaveRamsAlways(sys, s); }
    assert ThreadOk(sys, s, Gone) by { GoneIsOk(sys, s); }
    FrameAgrees(sys, s, BootOf(s, pid));
  }

  ghost predicate OwnersHaveRams(sys: System, s: State) {
    forall t :: t in s.threads && s.threads[t].Running? ==> s.threads[t].job.pid in s.rams
  }

  lemma OwnersHaveRamsAlways(sys: System, s: State)
    requires Agreed(sys, s)
    ensures OwnersHaveRams(sys, s)
  {
    forall t | t in s.threads && s.threads[t].Running? ensures s.threads[t].job.pid in s.rams {
      assert ThreadOk(sys, s, s.threads[t]);
    }
  }

  lemma GoneIsOk(sys: System, s: State)
    ensures ThreadOk(sys, s, Gone) && (forall job :: ThreadOk(sys, s, Starting(job)))
  {
  }

  /** Steps inside one thread, and the passing of time. */
  lemma LocalStepAgrees(sys: System, s: State, step: Step)
    requires Agreed(sys, s)
    requires step.Tick? || step.Arrive? || step.EffectStep? || step.DieStep?
    ensures Agreed(sys, Apply(sys, s, step))
  {
    hide Effects, Agreed, ThreadOk;
    GoneIsOk(sys, s);
    var s' := Apply(sys, s, step);
    if s' != s {
      match step
      case Tick(_, _) => TickAgrees(sys, s, s');
      case Arrive(tid, _) => OneThreadAgrees(sys, s, s', tid);
      case EffectStep(tid) => OneThreadAgrees(sys, s, s', tid);
      case DieStep(tid) => OneThreadAgrees(sys, s, s', tid);
    }
  }

  lemma TickAgrees(sys: System, s: State, s': State)
    requires Agreed(sys, s) && s' == s.(clocks := s'.clocks)
    ensures Agreed(sys, s')
  {
    hide Agreed, ThreadOk;
    OwnersHaveRamsAlways(sys, s);
    FrameAgrees(sys, s, s');
  }

  /** Every step keeps the agreement. */
  lemma StepAgrees(sys: System, s: State, step: Step)
    requires sys.codec.Inverse() && Safe(sys, s) && Agreed(sys, s)
    ensures Agreed(sys, Apply(sys, s, step))
  {
    hide Effects, Result, Refusal, FinishOf, ReserveOf, CheckOf, AbandonOf, WakeOf, BootOf, Safe, Agreed, ThreadOk;
    var s' := Apply(sys, s, step);
    match step
    case Boot(pid) => BootAgrees(sys, s, pid);
    case CheckStep(tid, io) => if s' != s { CheckStepAgrees(sys, s, tid, s.threads[tid].job, io); }
    case ReserveStep(tid, io) => if s' != s { ReserveAgrees(sys, s, tid, s.threads[tid].job, io); }
    case FinishStep(tid, write) =>
      if s' != s {
        var job := s.threads[tid].job;
        FinishAgrees(sys, s, tid, job, Result(sys.codec, job.request, job.world), write);
      }
    case RaiseStep(tid, write) =>
      if s' != s { FinishAgrees(sys, s, tid, s.threads[tid].job, Refusal(s.threads[tid].job), write); }
    case AbandonStep(tid, write) => if s' != s { AbandonAgrees(sys, s, tid, s.threads[tid].job, write); }
    case WakeStep(tid) => if s' != s { WakeAgrees(sys, s, tid, s.threads[tid].job, s.threads[tid].eid); }
    case _ => LocalStepAgrees(sys, s, step);
  }

  lemma {:induction false} RunsAgree(sys: System, ledger: Ledger, steps: seq<Step>)
    requires sys.codec.Inverse()
    ensures Agreed(sys, Exec(sys, Init(ledger), steps))
    decreases |steps|
  {
    if steps != [] {
      var k := |steps| - 1;
      RunsAgree(sys, ledger, steps[..k]);
      RunsAreSafe(sys, ledger, steps[..k]);
      StepAgrees(sys, Exec(sys, Init(ledger), steps[..k]), steps[k]);
    }
  }

  /** Answers that report the outcome of an authorization, as opposed to refusing or retryable ones. */
  predicate Reports(t: Thread) {
    t.Answered? && t.outcome.code != 400 && t.how in {Owner, FromWait, FromCache(FromRam), FromCache(FromLedger)}
  }

  /** In every run, any two reports on one authorization are the same outcome after redaction:
      its owner's, a waiter's, a RAM hit's and a ledger read's, before and after TTL or restart. */
  lemma ReportsAgree(sys: System, ledger: Ledger, steps: seq<Step>, t: Tid, u: Tid)
    requires sys.codec.Inverse()
    ensures var s := Exec(sys, Init(ledger), steps);
            t in s.threads && u in s.threads && Reports(s.threads[t]) && Reports(s.threads[u])
            && s.threads[t].job.fp == s.threads[u].job.fp ==>
              Sanitize(sys.codec, s.threads[t].outcome) == Sanitize(sys.codec, s.threads[u].outcome)
  {
    RunsAgree(sys, ledger, steps);
    var s := Exec(sys, Init(ledger), steps);
    if t in s.threads && u in s.threads && Reports(s.threads[t]) && Reports(s.threads[u])
       && s.threads[t].job.fp == s.threads[u].job.fp {
      ReportIs(sys, s, t);
      ReportIs(sys, s, u);
    }
  }

  /** The one outcome an authorization has, if any. */
  function Canonical(sys: System, s: State, fp: Fingerprint): Option<Outcome> {
    if fp in s.published then Some(s.published[fp])
    else if sys.hash(fp) in s.ledger then Readable(sys.codec, s.ledger[sys.hash(fp)])
    else None
  }

  lemma ReportIs(sys: System, s: State, t: Tid)
    requires Agreed(sys, s) && t in s.threads && Reports(s.threads[t])
    requires sys.codec.Inverse()
    ensures Canonical(sys, s, s.threads[t].job.fp) == Some(Sanitize(sys.codec, s.threads[t].outcome))
  {
    hide Sanitize, Readable;
    var a := s.threads[t];
    assert ThreadOk(sys, s, a);
    SanitizeIdempotent(sys.codec, a.outcome);
    assert Sanitize(sys.codec, a.outcome).code == a.outcome.code;
    if a.job.fp in s.published {
      assert PublishedOk(sys, s, a.job.fp);
    } else {
      ReadIsSanitized(sys.codec, s.ledger[sys.hash(a.job.fp)]);
    }
  }

  lemma ReadIsSanitized(codec: Codec, row: Row)
    requires codec.Inverse()
    ensures Readable(codec, row).Some? ==> Sanitize(codec, Readable(codec, row).value) == Readable(codec, row).value
  {
    if Readable(codec, row).Some? {
      var v := codec.json.loads(row.outcome.value).value;
      SanitizeIdempotent(codec, Unpacked(v).value);
    }
  }

  /** Once its outcome is on disk, any process at any time answers an authorization with that
      outcome alone, if it comes from the same scope, and refuses it otherwise. */
  lemma PersistedOutcomeIsTheAnswer(sys: System, ledger: Ledger, steps: seq<Step>, fp: Fingerprint,
                                    pid: Pid, legacy: Option<Fingerprint>, scope: Scope, io: Io, now: real)
    requires sys.codec.Inverse() && io.read
    ensures var s := Exec(sys, Init(ledger), steps);
            fp in s.published && sys.hash(fp) in s.ledger && s.ledger[sys.hash(fp)].outcome.Some? && pid in s.rams ==>
              var ram := s.rams[pid].(completed := Pruned(s.rams[pid].completed, now));
              var verdict := Check(sys.codec, sys.hash, ram, s.ledger, io, fp, legacy, scope, now);
              if scope == s.ledger[sys.hash(fp)].scope then verdict.Replayed? && verdict.outcome == s.published[fp]
              else verdict.Refuse?
  {
    RunsAgree(sys, ledger, steps);
    var s := Exec(sys, Init(ledger), steps);
    if fp in s.published && sys.hash(fp) in s.ledger && s.ledger[sys.hash(fp)].outcome.Some? && pid in s.rams {
      PersistedAnswer(sys, s, fp, pid, legacy, scope, io, now);
    }
  }

  lemma PersistedAnswer(sys: System, s: State, fp: Fingerprint, pid: Pid, legacy: Option<Fingerprint>,
                        scope: Scope, io: Io, now: real)
    requires sys.codec.Inverse() && io.read && Agreed(sys, s)
    requires fp in s.published && sys.hash(fp) in s.ledger && s.ledger[sys.hash(fp)].outcome.Some? && pid in s.rams
    ensures var ram := s.rams[pid].(completed := Pruned(s.rams[pid].completed, now));
            var verdict := Check(sys.codec, sys.hash, ram, s.ledger, io, fp, legacy, scope, now);
            if scope == s.ledger[sys.hash(fp)].scope then verdict.Replayed? && verdict.outcome == s.published[fp]
            else verdict.Refuse?
  {
    hide Sanitize, Readable, Encode, StateOf;
    assert PublishedOk(sys, s, fp);
    PublishedReads(sys, s, fp);
    assert fp in s.rams[pid].inflight ==> SlotOk(sys, s, pid, fp);
    var ram := s.rams[pid].(completed := Pruned(s.rams[pid].completed, now));
    var cached := Get(ram.completed, fp);
    if cached.Some? { assert KeptOk(sys, s, Item(fp, cached.value)); }
  }
}
