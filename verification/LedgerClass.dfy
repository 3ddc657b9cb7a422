/** The ledger state an outcome is persisted under, against what really happened to the money
    (live402/route.py with live402/replay.py). */
module LedgerClass {
  import opened Collections
  import opened Json
  import opened Outcomes
  import opened PaidRoute

  predicate Scalar(v: Json) {
    v.JNull? || v.JBool? || v.JStr?
  }

  lemma NormKeepsHead(k: string)
    requires k != "" && 'a' <= k[0] <= 'z'
    ensures |NormKey(k)| == |k| && NormKey(k)[0] == k[0]
  {
  }

  /** First letters (or, for one, the length) that no redacted container name has. */
  predicate BillKey(k: string) {
    k != "" && 'a' <= k[0] <= 'z' && k[0] !in {'f', 'h', 'p'} && (k[0] == 'r' ==> |k| == 4)
  }

  lemma BillKeysStay(k: string)
    requires BillKey(k)
    ensures !BlockedContainer(k)
  {
    NormKeepsHead(k);
  }

  lemma RouteKeysStay()
    ensures !Blocked("billing", 0) && !Blocked("live", 0)
  {
    NormKeepsHead("billing");
    NormKeepsHead("live");
  }

  lemma BillIsFlat(rail: string, attempted: Json, settled: Json, state: string)
    requires Scalar(attempted) && Scalar(settled)
    ensures var bill := Billing(rail, attempted, settled, state).fields;
            forall k :: k in bill ==> BillKey(k) && Scalar(bill[k])
  {
  }

  lemma FlatFieldsStay(m: Fields)
    requires forall k :: k in m ==> !BlockedContainer(k) && Scalar(m[k])
    ensures Cleanse(JDict(m), 1) == JDict(m)
  {
    assert forall k :: k in m ==> Cleanse(m[k], 2) == m[k];
    assert Cleanse(JDict(m), 1).fields == m;
  }

  /** Redaction leaves a bill of ours alone. */
  lemma BillSurvives(rail: string, attempted: Json, settled: Json, state: string)
    requires Scalar(attempted) && Scalar(settled)
    ensures Cleanse(Billing(rail, attempted, settled, state), 1) == Billing(rail, attempted, settled, state)
  {
    hide Billing, BillKey, BlockedContainer;
    var bill := Billing(rail, attempted, settled, state);
    BillIsFlat(rail, attempted, settled, state);
    forall k | k in bill.fields ensures !BlockedContainer(k) { BillKeysStay(k); }
    FlatFieldsStay(bill.fields);
  }

  /** The sanitized body keeps the two fields the state is read from. */
  lemma FieldsSurvive(codec: Codec, o: Outcome)
    requires o.body.JDict? && "billing" in o.body.fields
    ensures var s := Sanitize(codec, o);
            && s.code == o.code
            && Bill(s) == Cleanse(Bill(o), 1)
            && (IsFalse(Field(s.body.fields, "live")) <==> IsFalse(Field(o.body.fields, "live")))
  {
    hide Blocked, SafeExtra, CleanseFields;
    RouteKeysStay();
    FieldStays(o.body.fields, "billing");
    FieldStays(o.body.fields, "live");
    OtherThanError();
    FalseStays(Field(o.body.fields, "live"));
    assert Sanitize(codec, o).body.fields == SafeBody(o.code, o.body);
  }

  lemma OtherThanError()
    ensures "billing" != "error" && "live" != "error"
  {
  }

  lemma FieldStays(m: Fields, k: string)
    requires !Blocked(k, 0)
    ensures k in CleanseFields(m, 0) <==> k in m
    ensures k in m ==> CleanseFields(m, 0)[k] == Cleanse(m[k], 1)
  {
    hide Blocked;
  }

  lemma FalseStays(v: Json)
    ensures IsFalse(Cleanse(v, 1)) <==> IsFalse(v)
  {
  }

  lemma StateOfBill(o: Outcome, rail: string, attempted: Json, settled: Json, state: string)
    requires o.body.JDict? && Bill(o) == Billing(rail, attempted, settled, state) && Supported(rail)
    ensures StateOf(o) ==
      if o.code != 200 && o.code != 503 then Rejected
      else if state == "settled" && IsTrue(attempted) && IsTrue(settled) then Settled
      else if state == "unknown" && TrueOrNone(attempted) && settled == JNull && o.code == 503 then Unknown
      else if IsFalse(attempted) && IsFalse(settled) && o.code == 503 && IsFalse(Field(o.body.fields, "live"))
        then NotSettled
      else Settled
  {
    var bill := Billing(rail, attempted, settled, state).fields;
    assert OurBill(bill);
    assert Field(bill, "settlement_attempted") == attempted && Field(bill, "settled") == settled;
    assert Field(bill, "settlement_state") == JStr(state);
  }

  /** A miss that is written as it came: verified, refused by the gate, not dressed up as a winner. */
  predicate PlainMiss(req: Request, w: World) {
    w.verifyTime > 0 && VerifyOk(w.verify) && !Billable(w) && !PurportedWinner(w) && w.probe.JDict?
  }

  /** Settled in the ledger exactly when money moved, unknown exactly when that is in doubt. */
  predicate Truthful(state: LedgerState, money: Money) {
    (state.Settled? <==> money.Moved?) && (state.Unknown? <==> money.InDoubt?)
  }

  /** What run_probe returns: every 503 is an object with a literal `live: false`. */
  predicate ProbeReturns(w: World) {
    w.probeCode == 503 ==> w.probe.JDict? && IsFalse(Field(w.probe.fields, "live"))
  }

  /** For every answer of the probe the persisted state is truthful: settled exactly when money
      moved, unknown exactly when that is in doubt. */
  lemma PersistedStateTruth(codec: Codec, req: Request, w: World)
    requires Supported(req.rail) && ProbeReturns(w)
    requires Result(codec, req, w).code != 400
    ensures Truthful(StateOf(Sanitize(codec, Result(codec, req, w))), MoneyOf(codec, req, w))
  {
    hide Truthful, Result, MoneyOf, Sanitize, StateOf, Billable, PurportedWinner;
    TruthNeedsTheMark(codec, req, w);
  }

  /** More than not settled: a state of not settled or rejected is persisted only when no money
      moved, and not settled only when no settle call was made. */
  lemma ClosedStatesMeanNoMoney(codec: Codec, req: Request, w: World)
    requires Supported(req.rail) && ProbeReturns(w)
    requires Result(codec, req, w).code != 400
    ensures var state, money := StateOf(Sanitize(codec, Result(codec, req, w))), MoneyOf(codec, req, w);
            && (state.NotSettled? ==> money.Untouched?)
            && (state.Rejected? ==> money.Untouched? || money.Kept?)
            && (Terminal(state) || state.Unknown?)
  {
    hide Billing, OutcomeAt, Sanitize, Cleanse, StateOf, MoneyOf, Classify, SettleProgress;
    var p := ProgressOf(codec, req, w);
    var o := OutcomeAt(codec, req, w, p);
    MoneyAt(codec, req, w);
    BillAt(codec, req, w, p);
    LiveAt(codec, req, w, p);
    FieldsSurvive(codec, o);
    var attempted, settled, state := BillParts(p);
    BillSurvives(req.rail, attempted, settled, state);
    StateOfBill(Sanitize(codec, o), req.rail, attempted, settled, state);
  }

  /** When the execution raises, the outcome that is persisted says unknown. */
  lemma RaisedIsUnknown(codec: Codec, rail: string)
    requires Supported(rail)
    ensures StateOf(Sanitize(codec, UnknownOutcome(rail, JNull))) == Unknown
  {
    hide Billing, Sanitize, Cleanse, StateOf;
    var o := UnknownOutcome(rail, JNull);
    FieldsSurvive(codec, o);
    BillSurvives(rail, JNull, JNull, "unknown");
    StateOfBill(Sanitize(codec, o), rail, JNull, JNull, "unknown");
  }

  /** What the marks are for: the persisted state would be untruthful exactly for a plain 503 miss
      without a literal `live: false`, which run_probe never returns; one such miss is given below. */
  lemma TruthNeedsTheMark(codec: Codec, req: Request, w: World)
    requires Supported(req.rail)
    requires Result(codec, req, w).code != 400
    ensures Truthful(StateOf(Sanitize(codec, Result(codec, req, w))), MoneyOf(codec, req, w))
            <==> !(PlainMiss(req, w) && w.badBody.None? && w.probeCode == 503
                   && !IsFalse(Field(w.probe.fields, "live")))
  {
    hide Billing, OutcomeAt, Sanitize, Cleanse, StateOf, MoneyOf, Classify, SettleProgress;
    var p := ProgressOf(codec, req, w);
    var o := OutcomeAt(codec, req, w, p);
    var s := Sanitize(codec, o);
    MoneyAt(codec, req, w);
    BillAt(codec, req, w, p);
    LiveAt(codec, req, w, p);
    FieldsSurvive(codec, o);
    var attempted, settled, state := BillParts(p);
    BillSurvives(req.rail, attempted, settled, state);
    StateOfBill(s, req.rail, attempted, settled, state);
  }

  lemma BillParts(p: Progress) returns (attempted: Json, settled: Json, state: string)
    requires !p.BadBody? && !p.BadProbe?
    ensures Scalar(attempted) && Scalar(settled)
    ensures match p
            case Paid(_) => attempted == JBool(true) && settled == JBool(true) && state == "settled"
            case Declined => attempted == JBool(true) && settled == JBool(false) && state == "rejected"
            case Doubtful => attempted == JBool(true) && settled == JNull && state == "unknown"
            case NoWinner => attempted == JBool(false) && settled == JBool(false) && state == "not_attempted"
            case NoBinding => attempted == JBool(false) && settled == JBool(false) && state == "not_attempted"
            case _ => attempted == JBool(false) && settled == JBool(false) && state == "rejected"
  {
    match p
    case Paid(_) => return JBool(true), JBool(true), "settled";
    case Declined => return JBool(true), JBool(false), "rejected";
    case Doubtful => return JBool(true), JNull, "unknown";
    case NoWinner => return JBool(false), JBool(false), "not_attempted";
    case NoBinding => return JBool(false), JBool(false), "not_attempted";
    case _ => return JBool(false), JBool(false), "rejected";
  }

  /** Status code and liveness of the answers that make no settle call, and the codes of the others. */
  lemma LiveAt(codec: Codec, req: Request, w: World, p: Progress)
    requires p.BadBody? ==> w.badBody.Some?
    requires p.Paid? ==> w.probe.JDict?
    ensures var o := OutcomeAt(codec, req, w, p);
            && (p.NoWinner? || p.NoBinding? ==>
                 && o.body.JDict?
                 && (p.NoBinding? || PurportedWinner(w) || !w.probe.JDict? ==>
                      o.code == 503 && IsFalse(Field(o.body.fields, "live")))
                 && (p.NoWinner? && !PurportedWinner(w) && w.probe.JDict? ==>
                      o.code == w.probeCode && Field(o.body.fields, "live") == Field(w.probe.fields, "live")))
            && (p.BadBody? || p.BadProbe? ==> o.code == 400)
            && (p.Doubtful? ==> o.code == 503)
            && (p.Paid? ==> o.code == 200 || o.code == 503)
            && (p.Declined? || p.OutOfTime? || p.Unverified? || p.TooLate? ==> o.code == 402)
            && (!p.BadBody? && !p.BadProbe? ==> o.body.JDict? && "billing" in o.body.fields)
  {
    hide Miss, Unbound, Win, UnknownOutcome, Rejection, Billing, PurportedWinner;
    if p.NoWinner? { MissLive(req, w); }
    if p.NoBinding? { UnboundLive(req, w); }
    if p.Paid? { assert Win(codec, req, w, p.receipt).code in {200, 503}; }
  }

  lemma MissLive(req: Request, w: World)
    ensures var o := Miss(req, w);
            && o.body.JDict?
            && (PurportedWinner(w) || !w.probe.JDict? ==> o.code == 503 && IsFalse(Field(o.body.fields, "live")))
            && (!PurportedWinner(w) && w.probe.JDict? ==>
                  o.code == w.probeCode && Field(o.body.fields, "live") == Field(w.probe.fields, "live"))
  {
    hide PurportedWinner, NotAttempted, ObservedFacts;
    assert "live" != "billing" && "live" != "payable" && "live" != "invocable" && "live" != "selected_payment";
    assert IsFalse(Field(Downgraded(w.probe), "live"));
  }

  lemma UnboundLive(req: Request, w: World)
    ensures var o := Unbound(req, w); o.body.JDict? && o.code == 503 && IsFalse(Field(o.body.fields, "live"))
  {
    hide NotAttempted, ObservedFacts;
    assert "live" != "billing" && "live" != "binding_error" && "live" != "decision_binding"
        && "live" != "payable" && "live" != "invocable" && "live" != "selected_payment";
    assert IsFalse(Field(Downgraded(w.probe), "live"));
  }

  /** Such a miss would be recorded as settled although the facilitator was never asked to settle. */
  lemma UnmarkedMissIsRecordedSettled(codec: Codec, req: Request, w: World)
    requires Supported(req.rail)
    requires w.verifyTime > 0 && VerifyOk(w.verify) && w.badBody.None?
    requires w.probeCode == 503 && w.probe == JDict(map["tried" := JInt(0)])
    ensures MoneyOf(codec, req, w) == Untouched
    ensures StateOf(Sanitize(codec, Result(codec, req, w))) == Settled
  {
    hide Billing, OutcomeAt, Sanitize, Cleanse, StateOf, MoneyOf, Classify, SettleProgress;
    assert "tried" != "live" && "tried" != "payable" && "tried" != "selected_payment" && "tried" != "billing";
    var p := ProgressOf(codec, req, w);
    var o := OutcomeAt(codec, req, w, p);
    MoneyAt(codec, req, w);
    BillAt(codec, req, w, p);
    LiveAt(codec, req, w, p);
    FieldsSurvive(codec, o);
    BillSurvives(req.rail, JBool(false), JBool(false), "not_attempted");
    StateOfBill(Sanitize(codec, o), req.rail, JBool(false), JBool(false), "not_attempted");
  }
}
