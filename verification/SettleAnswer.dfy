/** What the facilitator put on the wire decides what the caller is billed and what the ledger keeps
    (live402/route.py over live402/facilitator.py), stated on the fields of the answers themselves. */
module SettleAnswer {
  import opened Collections
  import opened Json
  import opened Outcomes
  import opened PaidRoute
  import opened LedgerClass

  /** The outcome carries this bill, field by field. */
  predicate Charged(out: Outcome, rail: string, attempted: Json, settled: Json, state: string) {
    && out.body.JDict? && "billing" in out.body.fields && out.body.fields["billing"].JDict?
    && (var bill := out.body.fields["billing"].fields;
        && Says(bill, "model", JStr("success_only_v1")) && Says(bill, "condition", JStr("live_eligible_route_found"))
        && Says(bill, "asset", JStr("USDC")) && Says(bill, "amount_atomic", JStr("3000"))
        && Says(bill, "display_amount", JStr("$0.003"))
        && Says(bill, "rail", JStr(if rail == "" then "unknown" else rail))
        && Says(bill, "settlement_attempted", attempted) && Says(bill, "settled", settled)
        && Says(bill, "settlement_state", JStr(state)))
  }

  /** The facilitator verified the payment. */
  predicate WireVerified(w: World) {
    w.verifyTime > 0 && w.verify.CallOk? && Says(w.verify.body, "isValid", JBool(true))
  }

  /** The probe brought back a live, payable 402 that the gate lets through, with its binding if one is asked for. */
  predicate WinnerFound(req: Request, w: World) {
    && w.probeCode == 200 && w.probe.JDict?
    && Says(w.probe.fields, "live", JBool(true)) && Says(w.probe.fields, "payable", JBool(true))
    && Says(w.probe.fields, "status", JInt(402)) && w.gate
    && (req.routeBinding ==> w.binding.Some?)
  }

  /** Exactly when a settle call is made. */
  lemma SettleCallIff(codec: Codec, req: Request, w: World)
    ensures SettleCall in Effects(codec, req, w) <==>
              WireVerified(w) && w.badBody.None? && WinnerFound(req, w) && w.settleTime > 0
  {
    EffectsAreOrdered(ProgressOf(codec, req, w));
    hide SettleProgress;
    assert forall m: Fields, k: string, v: Json :: v != JNull ==> (Field(m, k) == v <==> Says(m, k, v));
  }

  lemma BillIsCharged(out: Outcome, rail: string, attempted: Json, settled: Json, state: string)
    requires Bill(out) == Billing(rail, attempted, settled, state)
    ensures Charged(out, rail, attempted, settled, state)
  {
  }

  lemma ChargedOnce(out: Outcome, rail: string, attempted: Json, settled: Json, state: string)
    requires Charged(out, rail, attempted, settled, state)
    ensures forall a, s, t :: Charged(out, rail, a, s, t) ==> a == attempted && s == settled && t == state
  {
  }

  lemma TurnedAwayIff(req: Request, w: World)
    ensures TurnedAway(req, w) <==> WireVerified(w) && !WinnerFound(req, w)
  {
    assert forall m: Fields, k: string, v: Json :: v != JNull ==> (Field(m, k) == v <==> Says(m, k, v));
  }

  /** The bill of every answer but a 400: settled exactly when a settle call was made and accepted with a
      valid receipt, which the answer then carries; rejected after a call exactly when it was refused;
      unknown, with a 503, for everything else a settle call can bring back. */
  lemma BillTellsTheWire(codec: Codec, req: Request, w: World)
    requires Result(codec, req, w).code != 400
    ensures var out, called := Result(codec, req, w), SettleCall in Effects(codec, req, w);
            var accepted, refused := WireAccepted(codec, w.settle, req.rail), WireRefused(w.settle);
            && (Charged(out, req.rail, JBool(true), JBool(true), "settled") <==> called && accepted)
            && (Charged(out, req.rail, JBool(true), JBool(false), "rejected") <==> called && refused)
            && (Charged(out, req.rail, JBool(true), JNull, "unknown") <==> called && !accepted && !refused)
            && (called && accepted ==> out.code == 200 || out.code == 503)
            && (called && refused ==> out.code == 402)
            && (called && !accepted && !refused ==> out.code == 503)
            && Receipt(out) == (if called && accepted then JStr(codec.header(ReceiptFields(w.settle.body))) else JNull)
            && (!called ==>
                  Charged(out, req.rail, JBool(false), JBool(false),
                          if WireVerified(w) && !WinnerFound(req, w) then "not_attempted" else "rejected"))
  {
    hide Billing, Bill, Receipt, Charged, Result, Effects, WireAccepted, WireRefused, WireVerified, WinnerFound,
         TurnedAway;
    BillingIsTruthful(codec, req, w);
    TurnedAwayIff(req, w);
    CodesAfterTheCall(codec, req, w);
    var out, money := Result(codec, req, w), MoneyOf(codec, req, w);
    WireIsOneThing(codec, w.settle, req.rail);
    var (attempted, settled, state) :=
      match money
      case Untouched => (JBool(false), JBool(false), if TurnedAway(req, w) then "not_attempted" else "rejected")
      case Moved(_) => (JBool(true), JBool(true), "settled")
      case Kept => (JBool(true), JBool(false), "rejected")
      case InDoubt => (JBool(true), JNull, "unknown");
    BillIsCharged(out, req.rail, attempted, settled, state);
    ChargedOnce(out, req.rail, attempted, settled, state);
  }

  /** An answer that never came is neither an acceptance nor a refusal. */
  lemma WireIsOneThing(codec: Codec, call: CallResult, rail: string)
    ensures !(WireAccepted(codec, call, rail) && WireRefused(call))
    ensures call.CallFailed? ==> !WireAccepted(codec, call, rail) && !WireRefused(call)
  {
  }

  lemma CodesAfterTheCall(codec: Codec, req: Request, w: World)
    ensures var out, money := Result(codec, req, w), MoneyOf(codec, req, w);
            && (money.Moved? ==> out.code == 200 || out.code == 503)
            && (money.Kept? ==> out.code == 402)
            && (money.InDoubt? ==> out.code == 503)
  {
    hide MoneyOf, Miss, Unbound, Win, UnknownOutcome, Rejection;
    MoneyAt(codec, req, w);
    var p := ProgressOf(codec, req, w);
    if p.Paid? { assert Win(codec, req, w, p.receipt).code in {200, 503}; }
  }

  /** ... and what the ledger keeps of it: settled exactly for an accepted call, rejected exactly for a
      refused one, and unknown for every other answer, a lost one above all. */
  lemma StateTellsTheWire(codec: Codec, req: Request, w: World)
    requires Supported(req.rail) && SettleCall in Effects(codec, req, w)
    ensures var state := StateOf(Sanitize(codec, Result(codec, req, w)));
            && (state == Settled <==> WireAccepted(codec, w.settle, req.rail))
            && (state == Rejected <==> WireRefused(w.settle))
            && (state == Unknown <==> !WireAccepted(codec, w.settle, req.rail) && !WireRefused(w.settle))
            && (w.settle.CallFailed? ==> state == Unknown)
  {
    hide Billing, OutcomeAt, Sanitize, Cleanse, StateOf, Classify, SettleProgress, WireAccepted, WireRefused;
    var p := ProgressOf(codec, req, w);
    var o := OutcomeAt(codec, req, w, p);
    EffectsAreOrdered(p);
    MoneyAt(codec, req, w);
    WireIsOneThing(codec, w.settle, req.rail);
    BillAt(codec, req, w, p);
    LiveAt(codec, req, w, p);
    FieldsSurvive(codec, o);
    var attempted, settled, state := BillParts(p);
    BillSurvives(req.rail, attempted, settled, state);
    StateOfBill(Sanitize(codec, o), req.rail, attempted, settled, state);
  }

  // ---- what the answers show ----------------------------------------------------------------

  /** Both maps agree on a key: in neither, or with one value in both. */
  predicate SameAt(a: Fields, b: Fields, key: string) {
    (key in a <==> key in b) && (key in a ==> a[key] == b[key])
  }

  const ADDED := {"billing", "binding_observation", "pq_secure", "pq_trust", "payment_authorization",
                  "decision_binding"}

  /** The winner as the probe gave it, but for the bill, the binding and the transparency fields. */
  ghost predicate WinnerShown(shown: Fields, req: Request, w: World)
    requires w.probe.JDict?
  {
    && (forall k :: k !in ADDED ==> SameAt(shown, w.probe.fields, k))
    && Says(shown, "pq_trust", w.pqTrust) && Says(shown, "payment_authorization", w.payAuthorization)
    && "binding_observation" !in shown && "pq_secure" !in shown
    && (if req.routeBinding then w.binding.Some? && Says(shown, "decision_binding", w.binding.value)
        else SameAt(shown, w.probe.fields, "decision_binding"))
  }

  /** An answer without the log leaf that was asked for: no winner is shown. */
  predicate LeafMissing(shown: Fields, w: World) {
    && Says(shown, "live", JBool(false)) && Says(shown, "invocable", JBool(false))
    && Says(shown, "error", JStr("transparency receipt unavailable"))
    && Says(shown, "pq_trust", w.pqTrust) && "selected_payment" !in shown && "payTo" !in shown
  }

  /** A paid 200 shows the winner; without the log leaf that was asked for the answer is a 503 that shows none. */
  lemma PaidAnswerShowsTheWinner(codec: Codec, req: Request, w: World)
    requires SettleCall in Effects(codec, req, w) && WireAccepted(codec, w.settle, req.rail)
    ensures var out := Result(codec, req, w);
            && w.probe.JDict? && out.body.JDict?
            && (if (req.routeBinding || req.wantsTransparency) && !w.leafDurable
                then out.code == 503 && LeafMissing(out.body.fields, w)
                else out.code == 200 && WinnerShown(out.body.fields, req, w))
  {
    hide Effects, WireAccepted, MoneyOf, Billing, Billable, SettleProgress, WinnerShown, LeafMissing;
    MoneyAt(codec, req, w);
    SettleCallIff(codec, req, w);
    PaidMoves(codec, req, w);
    var p := ProgressOf(codec, req, w);
    WinShows(codec, req, w, p.receipt);
  }

  lemma PaidMoves(codec: Codec, req: Request, w: World)
    requires SettleCall in Effects(codec, req, w) && WireAccepted(codec, w.settle, req.rail)
    ensures MoneyOf(codec, req, w).Moved?
  {
    hide Effects, WireAccepted;
  }

  lemma WinShows(codec: Codec, req: Request, w: World, receipt: Fields)
    requires w.probe.JDict? && (req.routeBinding ==> w.binding.Some?)
    ensures var out := Win(codec, req, w, receipt);
            && out.body.JDict?
            && (if (req.routeBinding || req.wantsTransparency) && !w.leafDurable
                then out.code == 503 && LeafMissing(out.body.fields, w)
                else out.code == 200 && WinnerShown(out.body.fields, req, w))
  {
    hide Billing, WinnerShown, LeafMissing, Attached, NoReceiptLeaf, Bound;
    var billed := Billed(Bound(req, w), Billing(req.rail, JBool(true), JBool(true), "settled")).fields;
    var attached := Attached(w, billed - {"binding_observation"});
    AttachedShows(req, w, Billing(req.rail, JBool(true), JBool(true), "settled"));
    NoLeafShows(w, attached);
  }

  lemma AttachedShows(req: Request, w: World, bill: Json)
    requires w.probe.JDict? && (req.routeBinding ==> w.binding.Some?)
    ensures var attached := Attached(w, Billed(Bound(req, w), bill).fields - {"binding_observation"});
            WinnerShown(attached, req, w) && Says(attached, "pq_trust", w.pqTrust)
  {
    DistinctNames();
  }

  lemma NoLeafShows(w: World, attached: Fields)
    ensures Says(attached, "pq_trust", w.pqTrust) ==>
              NoReceiptLeaf(attached).JDict? && LeafMissing(NoReceiptLeaf(attached).fields, w)
  {
    DistinctNames();
  }

  lemma DistinctNames()
    ensures "pq_secure" != "pq_trust" && "pq_secure" != "payment_authorization" && "pq_trust" != "payment_authorization"
    ensures "binding_observation" != "billing" && "binding_observation" != "pq_trust"
    ensures "binding_observation" != "payment_authorization" && "binding_observation" != "decision_binding"
    ensures "decision_binding" != "billing" && "decision_binding" != "pq_trust" && "decision_binding" != "pq_secure"
    ensures "decision_binding" != "payment_authorization" && "billing" != "pq_trust" && "billing" != "pq_secure"
    ensures "billing" != "payment_authorization" && "binding_observation" != "pq_secure"
  {
  }

  /** One fact kept of an observation: what was noted before stands, then comes what the result says. */
  predicate Noted(observed: Fields, before: Fields, name: string, value: Json) {
    if name in before && before[name] != JNull then Says(observed, name, before[name])
    else if value != JNull then Says(observed, name, value)
    else SameAt(observed, before, name)
  }

  function At(d: Fields, key: string): Json {
    if key in d then d[key] else JNull
  }

  predicate AllNoted(observed: Fields, result: Fields) {
    var before := if "observed" in result && result["observed"].JDict? then result["observed"].fields else map[];
    && Noted(observed, before, "live", JBool(Truthy(At(result, "live"))))
    && Noted(observed, before, "payable", At(result, "payable"))
    && Noted(observed, before, "invocable", At(result, "invocable"))
    && Noted(observed, before, "http_status", At(result, "status"))
    && Noted(observed, before, "latency_ms", At(result, "latency_ms"))
  }

  const DECIDED := {"billing", "error", "miss_reason", "stop_reason", "observed", "live", "payable", "invocable",
                    "selected_payment", "decision_binding", "binding_error"}

  /** A miss that shows no winner: the decision fields are zeroed and what was observed is kept beside them. */
  ghost predicate Zeroed(shown: Fields, result: Fields) {
    && Says(shown, "live", JBool(false)) && Says(shown, "payable", JBool(false))
    && Says(shown, "invocable", JBool(false)) && Says(shown, "selected_payment", JNull)
    && Says(shown, "error", JStr("route result failed billable winner validation"))
    && Says(shown, "stop_reason", JStr("constraints_unmet"))
    && Says(shown, "miss_reason",
            if Truthy(At(result, "miss_reason")) then At(result, "miss_reason") else JStr("constraints_unmet"))
    && "observed" in shown && shown["observed"].JDict? && AllNoted(shown["observed"].fields, result)
    && forall k :: k !in DECIDED ==> SameAt(shown, result, k)
  }

  /** The probe's answer looks like a winner, or is no object at all. */
  predicate Dressed(w: World) {
    w.probeCode == 200 || !w.probe.JDict?
    || Says(w.probe.fields, "live", JBool(true)) || Says(w.probe.fields, "payable", JBool(true))
    || At(w.probe.fields, "selected_payment") != JNull
  }

  /** A verified request without a winner: an answer that looks like one is zeroed and becomes a 503,
      and every other is passed on with its code and nothing but the bill added. */
  lemma RefusedWinnerIsZeroed(codec: Codec, req: Request, w: World)
    requires WireVerified(w) && w.badBody.None? && w.probeCode != 400 && !WinnerFound(req, w)
    ensures var out := Result(codec, req, w);
            && out.body.JDict?
            && (if Dressed(w) then
                  out.code == 503 && Zeroed(out.body.fields, if w.probe.JDict? then w.probe.fields else map[])
                else
                  out.code == w.probeCode
                  && forall k :: k != "billing" ==> SameAt(out.body.fields, w.probe.fields, k))
  {
    hide SettleProgress, Downgraded, NotAttempted, Win, UnknownOutcome, Rejection, Zeroed;
    assert forall m: Fields, k: string, v: Json :: v != JNull ==> (Field(m, k) == v <==> Says(m, k, v));
    DowngradedIsZeroed(w.probe);
    var result, shown := if w.probe.JDict? then w.probe.fields else map[], Downgraded(w.probe);
    BilledIsZeroed(shown, result, NotAttempted(req.rail));
    UnboundIsZeroed(shown, result, NotAttempted(req.rail));
  }

  lemma DowngradedIsZeroed(probe: Json)
    ensures Zeroed(Downgraded(probe), if probe.JDict? then probe.fields else map[])
  {
    hide AllNoted, ObservedFacts;
    FactsAreNoted(if probe.JDict? then probe.fields else map[]);
  }

  lemma RememberNotes(facts: Fields, name: string, value: Json)
    ensures Noted(Remember(facts, name, value), facts, name, value)
    ensures forall k :: k != name ==> SameAt(Remember(facts, name, value), facts, k)
  {
  }

  lemma NotedMoves(o: Fields, o': Fields, before: Fields, before': Fields, name: string, value: Json)
    requires SameAt(o', o, name) && SameAt(before, before', name)
    ensures Noted(o, before, name, value) ==> Noted(o', before', name, value)
  {
  }

  /** Facts of different names, noted one after the other. */
  function RememberAll(facts: Fields, items: seq<(string, Json)>): Fields
    decreases |items|
  {
    if items == [] then facts else RememberAll(Remember(facts, items[0].0, items[0].1), items[1..])
  }

  lemma {:induction false} OthersStay(facts: Fields, items: seq<(string, Json)>, name: string)
    requires forall i :: 0 <= i < |items| ==> items[i].0 != name
    ensures SameAt(RememberAll(facts, items), facts, name)
    decreases |items|
  {
    if items != [] {
      RememberNotes(facts, items[0].0, items[0].1);
      OthersStay(Remember(facts, items[0].0, items[0].1), items[1..], name);
    }
  }

  lemma {:induction false} EachIsNoted(facts: Fields, items: seq<(string, Json)>, k: nat)
    requires k < |items| && forall i, j :: 0 <= i < j < |items| ==> items[i].0 != items[j].0
    ensures Noted(RememberAll(facts, items), facts, items[k].0, items[k].1)
    decreases |items|
  {
    hide Remember, Noted;
    var once := Remember(facts, items[0].0, items[0].1);
    RememberNotes(facts, items[0].0, items[0].1);
    if k == 0 {
      OthersStay(once, items[1..], items[0].0);
      NotedMoves(once, RememberAll(facts, items), facts, facts, items[0].0, items[0].1);
    } else {
      EachIsNoted(once, items[1..], k - 1);
      assert items[1..][k - 1] == items[k];
      NotedMoves(RememberAll(facts, items), RememberAll(facts, items), once, facts, items[k].0, items[k].1);
    }
  }

  function FactList(result: Fields): seq<(string, Json)> {
    [("live", JBool(Truthy(At(result, "live")))), ("payable", At(result, "payable")),
     ("invocable", At(result, "invocable")), ("http_status", At(result, "status")),
     ("latency_ms", At(result, "latency_ms"))]
  }

  lemma FactsInOrder(result: Fields)
    ensures var has := "observed" in result && result["observed"].JDict?;
            var before := if has then result["observed"].fields else map[];
            ObservedFacts(result) == RememberAll(before, FactList(result))
  {
    hide Truthy, Remember;
    var before := if "observed" in result && result["observed"].JDict? then result["observed"].fields else map[];
    var items := FactList(result);
    var f1 := Remember(before, items[0].0, items[0].1);
    var f2 := Remember(f1, items[1].0, items[1].1);
    var f3 := Remember(f2, items[2].0, items[2].1);
    var f4 := Remember(f3, items[3].0, items[3].1);
    assert RememberAll(before, items) == RememberAll(f1, items[1..]);
    assert RememberAll(f1, items[1..]) == RememberAll(f2, items[2..]) by { assert items[1..][1..] == items[2..]; }
    assert RememberAll(f2, items[2..]) == RememberAll(f3, items[3..]) by { assert items[2..][1..] == items[3..]; }
    assert RememberAll(f3, items[3..]) == RememberAll(f4, items[4..]) by { assert items[3..][1..] == items[4..]; }
    assert RememberAll(f4, items[4..]) == Remember(f4, items[4].0, items[4].1) by { assert items[4..][1..] == []; }
  }

  lemma FactNamesDiffer(result: Fields)
    ensures var items := FactList(result); forall i, j :: 0 <= i < j < |items| ==> items[i].0 != items[j].0
  {
    hide Truthy, At;
    assert "live" != "payable" && "live" != "invocable" && "live" != "http_status" && "live" != "latency_ms";
    assert "payable" != "invocable" && "payable" != "http_status" && "payable" != "latency_ms";
    assert "invocable" != "http_status" && "invocable" != "latency_ms" && "http_status" != "latency_ms";
  }

  lemma FactsAreNoted(result: Fields)
    ensures AllNoted(ObservedFacts(result), result)
  {
    hide Truthy, RememberAll, Noted, At, ObservedFacts;
    var before := if "observed" in result && result["observed"].JDict? then result["observed"].fields else map[];
    var items := FactList(result);
    FactsInOrder(result);
    FactNamesDiffer(result);
    EachIsNoted(before, items, 0);
    EachIsNoted(before, items, 1);
    EachIsNoted(before, items, 2);
    EachIsNoted(before, items, 3);
    EachIsNoted(before, items, 4);
  }

  lemma BilledIsZeroed(shown: Fields, result: Fields, bill: Json)
    requires Zeroed(shown, result)
    ensures Zeroed(Billed(shown, bill).fields, result)
  {
    hide AllNoted;
  }

  lemma UnboundIsZeroed(shown: Fields, result: Fields, bill: Json)
    requires Zeroed(shown, result)
    ensures Zeroed(Billed((shown - {"decision_binding"})["binding_error" := JStr("route_binding_unavailable")],
                          bill).fields, result)
  {
    hide AllNoted;
  }
}
