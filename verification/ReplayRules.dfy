/** The rules of the replay guard that single steps rely on, stated on rows, clocks and bills
    (live402/replay.py): what a row answers, how long an outcome is kept, and what a reservation needs. */
module ReplayRules {
  import opened Collections
  import opened Json
  import opened Outcomes
  import opened PaidRoute
  import opened Replay
  import opened ReplayProtocol

  // ---- what a row answers -------------------------------------------------------------------

  /** An outcome whose own bill says that the settlement is unknown. */
  predicate SaysUnknown(o: Outcome) {
    && o.code == 503 && o.body.JDict? && "billing" in o.body.fields && o.body.fields["billing"].JDict?
    && (var bill := o.body.fields["billing"].fields;
        && Says(bill, "model", JStr("success_only_v1")) && Says(bill, "condition", JStr("live_eligible_route_found"))
        && Says(bill, "asset", JStr("USDC")) && Says(bill, "amount_atomic", JStr("3000"))
        && Says(bill, "display_amount", JStr("$0.003"))
        && "rail" in bill && bill["rail"] in {JStr("base"), JStr("solana"), JStr("algorand")}
        && Says(bill, "settlement_state", JStr("unknown"))
        && ("settled" in bill ==> bill["settled"] == JNull)
        && ("settlement_attempted" in bill ==>
              bill["settlement_attempted"] in {JNull, JBool(true), JInt(1), JFloat("1.0")}))
  }

  lemma UnknownIff(o: Outcome)
    ensures ExplicitState(o) == Some(Unknown) <==> SaysUnknown(o)
  {
    assert "settled" != "not_attempted" && "settled" != "unknown";
    assert "rejected" != "unknown" && "not_attempted" != "unknown";
  }

  /** A bill of ours that says no settlement was attempted, on a 503 that is literally not live. */
  predicate SaysNothingSettled(o: Outcome) {
    && o.code == 503 && o.body.JDict? && "billing" in o.body.fields && o.body.fields["billing"].JDict?
    && (var bill := o.body.fields["billing"].fields;
        && Says(bill, "model", JStr("success_only_v1")) && Says(bill, "condition", JStr("live_eligible_route_found"))
        && Says(bill, "asset", JStr("USDC")) && Says(bill, "amount_atomic", JStr("3000"))
        && Says(bill, "display_amount", JStr("$0.003"))
        && "rail" in bill && bill["rail"] in {JStr("base"), JStr("solana"), JStr("algorand")}
        && Says(bill, "settlement_attempted", JBool(false)) && Says(bill, "settled", JBool(false)))
    && Says(o.body.fields, "live", JBool(false))
  }

  /** The state that an outcome is stored under, for any outcome at all: unknown or not settled exactly when its own
      bill says so, settled for every other 200 and 503, and rejected for every other code. */
  lemma StateIff(o: Outcome)
    ensures StateOf(o) == Unknown <==> SaysUnknown(o)
    ensures StateOf(o) == NotSettled <==> SaysNothingSettled(o)
    ensures StateOf(o) == Settled <==> o.code in {200, 503} && !SaysUnknown(o) && !SaysNothingSettled(o)
    ensures StateOf(o) == Rejected <==> o.code !in {200, 503}
  {
    hide SaysUnknown, SaysNothingSettled, ExplicitState;
    UnknownIff(o);
    NothingSettledIff(o);
    NeverRejected(o);
  }

  lemma NothingSettledIff(o: Outcome)
    ensures ExplicitState(o) == Some(NotSettled) <==> SaysNothingSettled(o)
  {
  }

  lemma NeverRejected(o: Outcome)
    ensures ExplicitState(o).Some? ==> ExplicitState(o).value in {Settled, NotSettled, Unknown} && o.code in {200, 503}
    ensures SaysUnknown(o) || SaysNothingSettled(o) ==> o.code == 503
  {
    hide OurBill;
  }

  /** A row is replayed exactly if it can be read, is of the caller's scope or of the first version, and holds
      a readable outcome: any outcome of a closed row, and of an unknown row only one that says unknown. */
  lemma RowAnswersIff(codec: Codec, ledger: Ledger, h: Hash, scope: Scope, enforce: bool, read: bool, o: Outcome)
    ensures LookupRow(codec, ledger, h, scope, enforce, read) == Found(o) <==>
              && read && h in ledger
              && (enforce ==> ledger[h].version < 2 || ledger[h].scope == scope)
              && ledger[h].outcome.Some? && ledger[h].outcome.value != ""
              && Decode(codec, ledger[h].outcome.value) == Some(o)
              && (ledger[h].state in {Settled, NotSettled, Rejected} || (ledger[h].state == Unknown && SaysUnknown(o)))
    ensures LookupRow(codec, ledger, h, scope, enforce, read) == Missing <==> read && h !in ledger
  {
    hide Decode, ExplicitState, SaysUnknown;
    UnknownIff(o);
  }

  /** Abandoning closes nothing and opens nothing: an open row becomes unknown, every other row stays. */
  lemma AbandonedRows(ledger: Ledger, h: Hash, write: Write, g: Hash)
    ensures g in MarkUnknown(ledger, h, write) <==> g in ledger
    ensures g in ledger ==>
              MarkUnknown(ledger, h, write)[g] ==
              if g == h && write != LostDropped && ledger[h].state in {Pending, Unknown}
              then Row(Unknown, ledger[h].outcome, ledger[h].version, ledger[h].scope)
              else ledger[g]
  {
  }

  // ---- how long an outcome is kept ----------------------------------------------------------

  /** How many entries from position `i` on have not expired. */
  function LiveFrom(c: Odict<Fingerprint, Kept>, i: nat, now: real): nat
    requires i <= |c|
    decreases |c| - i
  {
    if i == |c| then 0 else (if c[i].value.expires > now then 1 else 0) + LiveFrom(c, i + 1, now)
  }

  lemma {:induction false} LiveCount(c: Odict<Fingerprint, Kept>, i: nat, now: real)
    requires i <= |c|
    ensures |Unexpired(c[i..], now)| == LiveFrom(c, i, now)
    decreases |c| - i
  {
    if i < |c| {
      LiveCount(c, i + 1, now);
      assert c[i..][1..] == c[i + 1..];
    }
  }

  lemma UnexpiredFirst(x: Item<Fingerprint, Kept>, rest: Odict<Fingerprint, Kept>, now: real)
    ensures Unexpired([x] + rest, now) ==
            (if x.value.expires > now then [x] else []) + Unexpired(rest, now)
  {
    assert ([x] + rest)[1..] == rest;
  }

  lemma UnexpiredNone(now: real)
    ensures Unexpired([], now) == []
  {
  }

  lemma {:induction false} UnexpiredOfBoth(a: Odict<Fingerprint, Kept>, b: Odict<Fingerprint, Kept>, now: real)
    ensures Unexpired(a + b, now) == Unexpired(a, now) + Unexpired(b, now)
    decreases |a|
  {
    hide Unexpired;
    if a == [] {
      assert a + b == b;
      UnexpiredNone(now);
    } else {
      var x, rest := a[0], a[1..];
      UnexpiredOfBoth(rest, b, now);
      UnexpiredFirst(x, rest, now);
      UnexpiredFirst(x, rest + b, now);
      assert a == [x] + rest && a + b == [x] + (rest + b);
    }
  }

  lemma LastOnes<T(!new)>(before: seq<T>, x: T, after: seq<T>, cut: nat)
    requires x !in before && x !in after && cut <= |before| + 1 + |after|
    ensures x in (before + [x] + after)[cut..] <==> cut <= |before|
  {
    var all := before + [x] + after;
    assert all[|before|] == x;
    if cut <= |before| {
      assert all[cut..][|before| - cut] == x;
    } else {
      forall i | 0 <= i < |all[cut..]| ensures all[cut..][i] != x {
        assert all[cut..][i] == after[cut + i - |before| - 1];
      }
    }
  }

  /** Pruning keeps exactly the entries that have not expired and have fewer than 2048 such entries after them. */
  lemma KeptIff(c: Odict<Fingerprint, Kept>, i: nat, now: real)
    requires UniqueKeys(c) && i < |c|
    ensures c[i] in Pruned(c, now) <==> c[i].value.expires > now && LiveFrom(c, i + 1, now) < 2048
  {
    if c[i].value.expires > now {
      var live, before, after := Unexpired(c, now), Unexpired(c[..i], now), Unexpired(c[i + 1..], now);
      LiveAround(c, i, now);
      hide Unexpired, UniqueKeys, LiveFrom;
      var cut := if |live| > 2048 then |live| - 2048 else 0;
      LastOnes(before, c[i], after, cut);
    }
  }

  lemma LiveAround(c: Odict<Fingerprint, Kept>, i: nat, now: real)
    requires UniqueKeys(c) && i < |c| && c[i].value.expires > now
    ensures var before, after := Unexpired(c[..i], now), Unexpired(c[i + 1..], now);
            && Unexpired(c, now) == before + [c[i]] + after && |after| == LiveFrom(c, i + 1, now)
            && c[i] !in before && c[i] !in after
  {
    UnexpiredOfBoth(c[..i], c[i..], now);
    assert c == c[..i] + c[i..];
    LiveCount(c, i + 1, now);
    assert c[i..][1..] == c[i + 1..] && c[i..][0] == c[i];
    forall k | 0 <= k < i ensures c[..i][k] != c[i] { assert c[k].key != c[i].key; }
    var rest := c[i + 1..];
    forall k | 0 <= k < |rest| ensures rest[k] != c[i] { assert c[i].key != c[i + 1 + k].key; }
  }

  lemma {:induction false} PutAppends<K, V>(d: Odict<K, V>, k: K, v: V)
    requires !Has(d, k)
    ensures Put(d, k, v) == d + [Item(k, v)]
    decreases |d|
  {
    if d != [] {
      HasTail(d, k);
      PutAppends(d[1..], k, v);
      assert d == [d[0]] + d[1..];
    }
  }

  lemma {:induction false} LastIsFound<K, V>(d: Odict<K, V>, k: K, v: V)
    requires !Has(d, k)
    ensures Get(d + [Item(k, v)], k) == Some(v)
    decreases |d|
  {
    var r := d + [Item(k, v)];
    if d != [] {
      HasTail(d, k);
      LastIsFound(d[1..], k, v);
      assert r[1..] == d[1..] + [Item(k, v)];
    }
  }

  lemma PrunedLast(c: Odict<Fingerprint, Kept>, fp: Fingerprint, v: Kept, now: real)
    requires !Has(c, fp)
    ensures v.expires <= now ==> !Has(Pruned(c + [Item(fp, v)], now), fp)
    ensures v.expires > now ==>
              exists d: Odict<Fingerprint, Kept> :: !Has(d, fp) && Pruned(c + [Item(fp, v)], now) == d + [Item(fp, v)]
  {
    var all := c + [Item(fp, v)];
    UnexpiredOfBoth(c, [Item(fp, v)], now);
    var before := Unexpired(c, now);
    assert Unexpired([Item(fp, v)], now) == if v.expires > now then [Item(fp, v)] else [] by {
      assert [Item(fp, v)][1..] == [];
    }
    forall i | 0 <= i < |before| ensures before[i].key != fp { assert before[i] in before; }
    var r := Pruned(all, now);
    if v.expires > now {
      var cut := if |before| + 1 > 2048 then |before| + 1 - 2048 else 0;
      assert r == before[cut..] + [Item(fp, v)];
      assert !Has(before[cut..], fp);
    } else {
      assert Unexpired(all, now) == before;
    }
  }

  /** For 120 seconds after it is finished an authorization is answered from memory: with its sanitized
      outcome in the scope it ran in, and refused in any other; then the memory has forgotten it. */
  lemma FinishedIsRemembered(codec: Codec, hash: Fingerprint -> Hash, ram: Ram<Eid>, ledger: Ledger, io: Io,
                             fp: Fingerprint, legacy: Option<Fingerprint>, ran: Scope, scope: Scope, safe: Outcome,
                             now: real, later: real)
    requires fp in ram.inflight && ram.inflight[fp].scope == ran && !Has(ram.completed, fp) && now <= later
    ensures var after := FinishRam(ram, fp, safe, true, now);
            var asked := after.(completed := Pruned(after.completed, later));
            && (later < now + 120.0 ==>
                  Check(codec, hash, asked, ledger, io, fp, legacy, scope, later) ==
                  if scope == ran then Replayed(FromRam, safe) else Refuse)
            && (later >= now + 120.0 ==> !Has(asked.completed, fp) && fp !in asked.inflight)
  {
    hide LookupRow, Pruned, Unexpired;
    var c := Pruned(ram.completed, now);
    var v := Kept.Kept(now + 120.0, ran, safe);
    forall i | 0 <= i < |c| ensures c[i].key != fp { assert c[i] in c; }
    PutAppends(c, fp, v);
    PrunedLast(c, fp, v, now);
    var d: Odict<Fingerprint, Kept> :| !Has(d, fp) && Pruned(c + [Item(fp, v)], now) == d + [Item(fp, v)];
    PrunedLast(d, fp, v, later);
    if later < now + 120.0 {
      var e: Odict<Fingerprint, Kept> :| !Has(e, fp) && Pruned(d + [Item(fp, v)], later) == e + [Item(fp, v)];
      LastIsFound(e, fp, v);
    }
  }

  // ---- what finishing leaves ----------------------------------------------------------------

  /** Finishing closes its own row: kept, the row reads as the redacted outcome in the state that says; after a 400
      it is gone. Every other row stays, and a write that did not happen changes nothing. */
  lemma FinishedRows(codec: Codec, ledger: Ledger, h: Hash, o: Outcome, cache: bool, write: Write, g: Hash)
    requires codec.Inverse()
    ensures var safe := Sanitize(codec, o);
            var after := FinishRow(codec, ledger, h, safe, cache, write);
            && (write == LostDropped || h !in ledger ==> after == ledger)
            && (g != h ==> (g in after <==> g in ledger) && (g in ledger ==> after[g] == ledger[g]))
            && (write != LostDropped && h in ledger && !cache ==> h !in after)
            && (write != LostDropped && h in ledger && cache ==>
                  && h in after && after[h].outcome.Some? && Decode(codec, after[h].outcome.value) == Some(safe)
                  && after[h].state == StateOf(safe)
                  && after[h].version == ledger[h].version && after[h].scope == ledger[h].scope)
  {
    hide Sanitize, Encode, Decode, StateOf;
    DecodeEncode(codec, Sanitize(codec, o));
    SanitizeIdempotent(codec, o);
  }

  /** After a 400 nothing is left of the request: once its row is deleted, a corrected one may run. */
  lemma CorrectedMayRun(codec: Codec, hash: Fingerprint -> Hash, ram: Ram<Eid>, ledger: Ledger, write: Write, io: Io,
                        fp: Fingerprint, legacy: Option<Fingerprint>, scope: Scope, o: Outcome, now: real, later: real)
    requires !Has(ram.completed, fp) && write != LostDropped && io == Io(true, true, true, Committed)
    requires legacy.Some? ==> hash(legacy.value) !in ledger
    ensures var after := FinishRam(ram, fp, o, false, now);
            var rows := FinishRow(codec, ledger, hash(fp), o, false, write);
            var asked := after.(completed := Pruned(after.completed, later));
            && Check(codec, hash, asked, rows, io, fp, legacy, scope, later) == Proceed
            && Reserve(rows, hash(fp), scope, io).1
  {
    hide Pruned;
    assert forall x :: x in Pruned(ram.completed, later) ==> x in ram.completed;
  }

  // ---- what a reservation needs -------------------------------------------------------------

  /** The caller may run exactly when the cutover is acknowledged, the hash is new and the write committed;
      the row is there also when the write was only reported lost. */
  lemma ReservedIff(ledger: Ledger, h: Hash, scope: Scope, io: Io)
    ensures var (after, run) := Reserve(ledger, h, scope, io);
            && (run <==> io.cutover && h !in ledger && io.write == Committed)
            && (if io.cutover && h !in ledger && io.write != LostDropped
                then after == ledger[h := Row(Pending, None, 2, scope)] else after == ledger)
  {
  }

  /** No reservation of the run goes through: unacknowledged cutover, or a write that did not commit. */
  ghost predicate NeverReserved(steps: seq<Step>) {
    forall i :: 0 <= i < |steps| && steps[i].ReserveStep? ==> !steps[i].io.cutover || steps[i].io.write != Committed
  }

  ghost predicate NobodyRuns(s: State) {
    s.calls == [] && forall t :: t in s.threads ==> !s.threads[t].Running?
  }

  lemma StepRunsNobody(sys: System, s: State, step: Step)
    requires NobodyRuns(s) && (step.ReserveStep? ==> !step.io.cutover || step.io.write != Committed)
    ensures NobodyRuns(Apply(sys, s, step))
  {
    hide Check, Pruned, Refusal, Effects, Supported, CheckOf, ReserveOf, FinishOf, AbandonOf, WakeOf, Result;
    var s' := Apply(sys, s, step);
    match step
    case CheckStep(tid, io) => if s' != s { CheckChanges(sys, s, tid, s.threads[tid].job, io); }
    case ReserveStep(tid, io) => if s' != s { RefusedToRun(sys, s, tid, s.threads[tid].job, io); }
    case WakeStep(tid) => if s' != s { WakeChanges(s, tid, s.threads[tid].job, s.threads[tid].eid); }
    case _ =>
  }

  lemma RefusedToRun(sys: System, s: State, tid: Tid, job: Job, io: Io)
    requires NobodyRuns(s) && job.pid in s.rams && (!io.cutover || io.write != Committed)
    ensures NobodyRuns(ReserveOf(sys, s, tid, job, io))
  {
    hide Refusal;
  }

  /** Without an acknowledged cutover and a committed row nobody is ever settled, in any run. */
  lemma {:induction false} SettlingNeedsAReservation(sys: System, ledger: Ledger, steps: seq<Step>)
    requires NeverReserved(steps)
    ensures NobodyRuns(Exec(sys, Init(ledger), steps))
    decreases |steps|
  {
    hide Apply;
    if steps != [] {
      var k := |steps| - 1;
      SettlingNeedsAReservation(sys, ledger, steps[..k]);
      StepRunsNobody(sys, Exec(sys, Init(ledger), steps[..k]), steps[k]);
    }
  }
}
