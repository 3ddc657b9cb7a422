/** One paid request after it has been admitted: verify, probe, gate, settle
    (live402/route.py and the result classification of live402/facilitator.py).
    The facilitator, the probe and the transparency log are arbitrary: their answers are the World. */
module PaidRoute {
  import opened Collections
  import opened Json
  import opened Outcomes
  import Text

  // ---- live402/facilitator.py ---------------------------------------------------------------

  /** What one POST to a facilitator brought back: a 2xx JSON object, or anything else. */
  datatype CallResult = CallFailed | CallOk(body: Fields)

  predicate VerifyOk(call: CallResult) {
    call.CallOk? && IsTrue(Field(call.body, "isValid"))
  }

  datatype Settlement = Accepted(receipt: Fields) | Refused | Ambiguous

  predicate AmbiguousReason(reason: Json) {
    reason.JStr? && Text.Lower(Text.Strip(reason.text)) in {"pending", "settlement_pending", "submitted", "unknown"}
  }

  function Classify(codec: Codec, call: CallResult, rail: string): Settlement {
    match call
    case CallFailed => Ambiguous
    case CallOk(body) =>
      var success := Field(body, "success");
      if IsTrue(success) then
        match SanitizeReceipt(codec, body, JStr(rail))
        case Some(receipt) => Accepted(receipt)
        case None => Ambiguous
      else if IsFalse(success) then
        if AmbiguousReason(Field(body, "errorReason")) then Ambiguous else Refused
      else Ambiguous
  }

  // ---- live402/route.py ---------------------------------------------------------------------

  /** The observable actions of one request, in order. */
  datatype Effect = VerifyCall | ProbeCall | SettleCall | PromoteBatch | AppendLeaf

  /** What the request carries and what the 402 challenge for it looks like. */
  datatype Request = Request(
    rail: string, required: Fields, requiredHeader: string, routeBinding: bool, wantsTransparency: bool)

  /** Everything outside the request that the execution depends on. */
  datatype World = World(
    verifyTime: int, verify: CallResult, badBody: Option<Fields>,
    probeCode: int, probe: Json,
    /** the https URL, constraint, envelope and payTo checks of _billable_winner, spelled out in WinnerGate */
    gate: bool,
    binding: Option<Json>,
    settleTime: int, settle: CallResult,
    pqTrust: Json, payAuthorization: Json,
    /** _transparency_ok */
    leafDurable: bool)

  function Billing(rail: string, attempted: Json, settled: Json, state: string): (r: Json)
    ensures r.JDict?
  {
    JDict(map["model" := JStr(BILLING_MODEL), "condition" := JStr(SETTLEMENT_CONDITION), "asset" := JStr("USDC"),
              "amount_atomic" := JStr(AMOUNT_ATOMIC), "display_amount" := JStr(AMOUNT_USD),
              "rail" := JStr(if rail == "" then "unknown" else rail),
              "settlement_attempted" := attempted, "settled" := settled, "settlement_state" := JStr(state)])
  }

  function Bill(o: Outcome): Json {
    if o.body.JDict? then Field(o.body.fields, "billing") else JNull
  }

  /** dict(result) with its bill filled in */
  function Billed(result: Fields, bill: Json): (r: Json)
    ensures r.JDict? && Field(r.fields, "billing") == bill
  {
    JDict(result["billing" := bill])
  }

  function UnknownOutcome(rail: string, attempted: Json): (r: Outcome)
    ensures r.code == 503 && Bill(r) == Billing(rail, attempted, JNull, "unknown")
  {
    Outcome(503,
      Billed(
        map["error" := JStr("Routing authorization outcome unknown; do not retry this authorization"),
            "live" := JBool(false), "payable" := JBool(false), "invocable" := JBool(false),
            "selected_payment" := JNull, "miss_reason" := JStr("settlement_unknown")],
        Billing(rail, attempted, JNull, "unknown")),
      JNull)
  }

  /** A 402 with the challenge repeated, an error text and a rejected bill. */
  function Rejection(req: Request, error: string, attempted: bool): (r: Outcome)
    ensures r.code == 402 && Bill(r) == Billing(req.rail, JBool(attempted), JBool(false), "rejected")
  {
    Outcome(402,
      Billed(req.required["error" := JStr(error)], Billing(req.rail, JBool(attempted), JBool(false), "rejected")),
      JDict(map["PAYMENT-REQUIRED" := JStr(req.requiredHeader)]))
  }

  predicate Billable(w: World) {
    && w.probeCode == 200 && w.probe.JDict?
    && IsTrue(Field(w.probe.fields, "live")) && IsTrue(Field(w.probe.fields, "payable"))
    && Field(w.probe.fields, "status") == JInt(402)
    && w.gate
  }

  /** A probe result that looks like a winner although the gate refused it. */
  predicate PurportedWinner(w: World) {
    w.probeCode == 200
    || (w.probe.JDict? && (IsTrue(Field(w.probe.fields, "live")) || IsTrue(Field(w.probe.fields, "payable"))
                           || Field(w.probe.fields, "selected_payment") != JNull))
  }

  /** A fact is kept under its name unless one is there already. */
  function Remember(facts: Fields, name: string, value: Json): Fields {
    if Field(facts, name).JNull? && !value.JNull? then facts[name := value] else facts
  }

  /** _preserve_observed_facts: what was observed, next to the decision fields that a miss zeroes. */
  function ObservedFacts(out: Fields): Fields {
    var given := Field(out, "observed");
    var facts := if given.JDict? then given.fields else map[];
    var live := Remember(facts, "live", JBool(Truthy(Field(out, "live"))));
    var payable := Remember(live, "payable", Field(out, "payable"));
    var invocable := Remember(payable, "invocable", Field(out, "invocable"));
    Remember(Remember(invocable, "http_status", Field(out, "status")), "latency_ms", Field(out, "latency_ms"))
  }

  function Downgraded(result: Json): Fields {
    var out := if result.JDict? then result.fields else map[];
    var reason := Field(out, "miss_reason");
    out["error" := JStr("route result failed billable winner validation")]
       ["miss_reason" := if Truthy(reason) then reason else JStr("constraints_unmet")]
       ["stop_reason" := JStr("constraints_unmet")]
       ["observed" := JDict(ObservedFacts(out))]
       ["live" := JBool(false)]["payable" := JBool(false)]["invocable" := JBool(false)]["selected_payment" := JNull]
  }

  function NotAttempted(rail: string): (r: Json)
    ensures r.JDict?
  {
    Billing(rail, JBool(false), JBool(false), "not_attempted")
  }

  function Miss(req: Request, w: World): (r: Outcome)
    ensures Bill(r) == NotAttempted(req.rail)
  {
    if PurportedWinner(w) || !w.probe.JDict? then
      Outcome(503, Billed(Downgraded(w.probe), NotAttempted(req.rail)), JNull)
    else
      Outcome(w.probeCode, Billed(w.probe.fields, NotAttempted(req.rail)), JNull)
  }

  function Unbound(req: Request, w: World): (r: Outcome)
    ensures r.code == 503 && Bill(r) == NotAttempted(req.rail)
  {
    var result := (Downgraded(w.probe) - {"decision_binding"})["binding_error" := JStr("route_binding_unavailable")];
    Outcome(503, Billed(result, NotAttempted(req.rail)), JNull)
  }

  /** The winner with its binding, before it is paid for. */
  function Bound(req: Request, w: World): Fields
    requires w.probe.JDict?
  {
    if req.routeBinding && w.binding.Some? then w.probe.fields["decision_binding" := w.binding.value]
    else w.probe.fields
  }

  /** _attach_pq_trust: the transparency object joins the paid result. */
  function Attached(w: World, result: Fields): (r: Fields)
    ensures Field(r, "billing") == Field(result, "billing")
  {
    (result - {"pq_secure"})["pq_trust" := w.pqTrust]["payment_authorization" := w.payAuthorization]
  }

  function NoReceiptLeaf(attached: Fields): (r: Json)
    ensures r.JDict? && Field(r.fields, "billing") == Field(attached, "billing")
    ensures IsFalse(Field(r.fields, "live"))
  {
    Billed(map["error" := JStr("transparency receipt unavailable"), "live" := JBool(false), "invocable" := JBool(false),
               "miss_reason" := Field(attached, "miss_reason"), "pq_trust" := Field(attached, "pq_trust")],
           Field(attached, "billing"))
  }

  function Win(codec: Codec, req: Request, w: World, receipt: Fields): (r: Outcome)
    requires w.probe.JDict?
    ensures r.code == 200 || r.code == 503
    ensures Bill(r) == Billing(req.rail, JBool(true), JBool(true), "settled")
  {
    var billed := Billed(Bound(req, w), Billing(req.rail, JBool(true), JBool(true), "settled")).fields;
    var attached := Attached(w, billed - {"binding_observation"});
    assert Field(billed - {"binding_observation"}, "billing") == Field(billed, "billing");
    var extra := JDict(map["PAYMENT-RESPONSE" := JStr(codec.header(receipt))]);
    if (req.routeBinding || req.wantsTransparency) && !w.leafDurable then Outcome(503, NoReceiptLeaf(attached), extra)
    else Outcome(200, JDict(attached), extra)
  }

  /** How far a paid request got. */
  datatype Progress =
    | OutOfTime | Unverified | BadBody | BadProbe | NoWinner | NoBinding | TooLate | Doubtful | Declined
    | Paid(receipt: Fields)

  function SettleProgress(codec: Codec, req: Request, w: World): (p: Progress)
    ensures p.Doubtful? || p.Declined? || p.Paid?
  {
    match Classify(codec, w.settle, req.rail)
    case Ambiguous => Doubtful
    case Refused => Declined
    case Accepted(body) =>
      match SanitizeReceipt(codec, body, JStr(req.rail))
      case None => Doubtful
      case Some(receipt) => Paid(receipt)
  }

  function ProgressOf(codec: Codec, req: Request, w: World): (p: Progress)
    ensures p.BadBody? ==> w.badBody.Some?
    ensures p.Paid? ==> w.probe.JDict?
  {
    if w.verifyTime <= 0 then OutOfTime
    else if !VerifyOk(w.verify) then Unverified
    else if w.badBody.Some? then BadBody
    else if w.probeCode == 400 then BadProbe
    else if !Billable(w) then NoWinner
    else if req.routeBinding && w.binding.None? then NoBinding
    else if w.settleTime <= 0 then TooLate
    else SettleProgress(codec, req, w)
  }

  function EffectsAt(p: Progress): seq<Effect> {
    match p
    case OutOfTime => []
    case Unverified => [VerifyCall]
    case BadBody => [VerifyCall]
    case BadProbe => [VerifyCall, ProbeCall]
    case NoWinner => [VerifyCall, ProbeCall]
    case NoBinding => [VerifyCall, ProbeCall]
    case TooLate => [VerifyCall, ProbeCall]
    case Doubtful => [VerifyCall, ProbeCall, SettleCall]
    case Declined => [VerifyCall, ProbeCall, SettleCall]
    case Paid(_) => [VerifyCall, ProbeCall, SettleCall, PromoteBatch, AppendLeaf]
  }

  function OutcomeAt(codec: Codec, req: Request, w: World, p: Progress): Outcome
    requires p.BadBody? ==> w.badBody.Some?
    requires p.Paid? ==> w.probe.JDict?
  {
    match p
    case OutOfTime => Rejection(req, "Payment verification failed", false)
    case Unverified => Rejection(req, "Payment verification failed", false)
    case BadBody => Outcome(400, JDict(w.badBody.value), JNull)
    case BadProbe => Outcome(400, w.probe, JNull)
    case NoWinner => Miss(req, w)
    case NoBinding => Unbound(req, w)
    case TooLate => Rejection(req, "Payment settlement not attempted", false)
    case Doubtful => UnknownOutcome(req.rail, JBool(true))
    case Declined => Rejection(req, "Payment settlement failed", true)
    case Paid(receipt) => Win(codec, req, w, receipt)
  }

  /** _paid_execute: the effects, in order, and the outcome. */
  function Effects(codec: Codec, req: Request, w: World): seq<Effect> {
    EffectsAt(ProgressOf(codec, req, w))
  }

  function Result(codec: Codec, req: Request, w: World): Outcome {
    OutcomeAt(codec, req, w, ProgressOf(codec, req, w))
  }

  /** The request handler as it runs: effects happen one by one and the result dict is filled in place. */
  class RouteExecution {
    var log: seq<Effect>
    var result: Fields

    constructor ()
      ensures log == [] && result == map[]
    {
      log, result := [], map[];
    }

    method PaidExecute(codec: Codec, req: Request, w: World) returns (out: Outcome)
      modifies this
      ensures out == Result(codec, req, w)
      ensures log == old(log) + Effects(codec, req, w)
    {
      hide SettleProgress, Rejection, VerifyOk, Miss, Unbound, Bound, Billable, Win, UnknownOutcome, PurportedWinner;
      if w.verifyTime <= 0 {
        return Rejection(req, "Payment verification failed", false);
      }
      log := log + [VerifyCall];
      if !VerifyOk(w.verify) {
        return Rejection(req, "Payment verification failed", false);
      }
      if w.badBody.Some? {
        return Outcome(400, JDict(w.badBody.value), JNull);
      }
      log := log + [ProbeCall];
      if w.probeCode == 400 {
        return Outcome(400, w.probe, JNull);
      }
      if !Billable(w) {
        out := SkipSettlement(req, w);
        return;
      }
      var bound := BindWinner(req, w);
      if !bound {
        return Outcome(503, JDict(result), JNull);
      }
      if w.settleTime <= 0 {
        return Rejection(req, "Payment settlement not attempted", false);
      }
      out := SettleWinner(codec, req, w);
    }

    /** A miss, or a purported winner turned into one. */
    method SkipSettlement(req: Request, w: World) returns (out: Outcome)
      modifies this`result
      ensures out == Miss(req, w)
    {
      var code := w.probeCode;
      if PurportedWinner(w) || !w.probe.JDict? {
        result := Downgraded(w.probe);
        code := 503;
      } else {
        result := w.probe.fields;
      }
      result := Billed(result, NotAttempted(req.rail)).fields;
      return Outcome(code, JDict(result), JNull);
    }

    /** The route binding, when the caller requires one; without it the winner is not paid for. */
    method BindWinner(req: Request, w: World) returns (bound: bool)
      requires Billable(w)
      modifies this`result
      ensures bound == (req.routeBinding ==> w.binding.Some?)
      ensures bound ==> result == Bound(req, w)
      ensures !bound ==> Outcome(503, JDict(result), JNull) == Unbound(req, w)
    {
      result := w.probe.fields;
      bound := true;
      if req.routeBinding {
        if w.binding.None? {
          result := Downgraded(JDict(result)) - {"decision_binding"};
          result := result["binding_error" := JStr("route_binding_unavailable")];
          result := Billed(result, NotAttempted(req.rail)).fields;
          bound := false;
        } else {
          result := result["decision_binding" := w.binding.value];
        }
      }
    }

    /** The economic action and what follows it. */
    method SettleWinner(codec: Codec, req: Request, w: World) returns (out: Outcome)
      requires Billable(w) && result == Bound(req, w)
      modifies this
      ensures var p := SettleProgress(codec, req, w);
              && out == OutcomeAt(codec, req, w, p)
              && log == old(log) + EffectsAt(p)[2..]
    {
      hide Classify, SanitizeReceipt, UnknownOutcome, Rejection, Win, Billable, Bound;
      log := log + [SettleCall];
      var settlement := Classify(codec, w.settle, req.rail);
      if settlement.Ambiguous? {
        return UnknownOutcome(req.rail, JBool(true));
      }
      if settlement.Refused? {
        return Rejection(req, "Payment settlement failed", true);
      }
      var receipt := SanitizeReceipt(codec, settlement.receipt, JStr(req.rail));
      if receipt.None? {
        return UnknownOutcome(req.rail, JBool(true));
      }
      log := log + [PromoteBatch];
      log := log + [AppendLeaf];
      out := AttachTrust(codec, req, w, receipt.value);
    }

    /** The paid answer: bill, transparency object and receipt header. */
    method AttachTrust(codec: Codec, req: Request, w: World, receipt: Fields) returns (out: Outcome)
      requires Billable(w) && result == Bound(req, w)
      modifies this`result
      ensures out == Win(codec, req, w, receipt)
    {
      result := Billed(result, Billing(req.rail, JBool(true), JBool(true), "settled")).fields;
      result := result - {"binding_observation"};
      result := Attached(w, result);
      var extra := JDict(map["PAYMENT-RESPONSE" := JStr(codec.header(receipt))]);
      if (req.routeBinding || req.wantsTransparency) && !w.leafDurable {
        return Outcome(503, NoReceiptLeaf(result), extra);
      }
      return Outcome(w.probeCode, JDict(result), extra);
    }
  }

  // ---- what the effects and the bill say about each other -----------------------------------

  function Settles(effects: seq<Effect>): nat {
    multiset(effects)[SettleCall]
  }

  /** The facilitator's answer, on the wire: it accepted, with a valid receipt for the rail
      (or for the rail it names when none of the three is asked for). */
  predicate WireAccepted(codec: Codec, call: CallResult, rail: string) {
    call.CallOk?
    && if rail in {"base", "solana", "algorand"} then ReceiptOn(codec, call.body, rail)
       else ReceiptOn(codec, call.body, "base") || ReceiptOn(codec, call.body, "solana")
            || ReceiptOn(codec, call.body, "algorand")
  }

  /** ... or it refused, for a reason that does not leave the outcome open. */
  predicate WireRefused(call: CallResult) {
    call.CallOk? && Says(call.body, "success", JBool(false))
    && !("errorReason" in call.body && call.body["errorReason"].JStr?
         && Text.Lower(Text.Strip(call.body["errorReason"].text))
              in {"pending", "settlement_pending", "submitted", "unknown"})
  }

  /** What happened to the payer's money: a settle call was made or not, and what the wire brought back. */
  datatype Money = Untouched | Moved(receipt: Fields) | Kept | InDoubt

  function MoneyOf(codec: Codec, req: Request, w: World): Money {
    if SettleCall !in Effects(codec, req, w) then Untouched
    else if WireAccepted(codec, w.settle, req.rail) then Moved(ReceiptFields(w.settle.body))
    else if WireRefused(w.settle) then Kept
    else InDoubt
  }

  /** The classification is what the wire says: accepted exactly with a valid receipt, refused exactly
      with a literal refusal, and everything else, a lost answer above all, ambiguous. */
  lemma ClassifyReadsTheWire(codec: Codec, call: CallResult, rail: string)
    ensures var c := Classify(codec, call, rail);
            && (c.Accepted? <==> WireAccepted(codec, call, rail))
            && (c.Accepted? ==> c.receipt == ReceiptFields(call.body))
            && (c.Refused? <==> WireRefused(call))
            && (call.CallFailed? ==> c == Ambiguous)
  {
    hide SanitizeReceipt;
    if call.CallOk? { ReceiptIff(codec, call.body, rail); }
  }

  /** The second receipt check in the route never fails after the first one passed. */
  lemma AcceptedReceiptStands(codec: Codec, call: CallResult, rail: string)
    requires Classify(codec, call, rail).Accepted?
    ensures var receipt := Classify(codec, call, rail).receipt;
            SanitizeReceipt(codec, receipt, JStr(rail)) == Some(receipt)
  {
    ReceiptIsFixed(codec, call.body, JStr(rail));
  }

  lemma EffectsAreOrdered(p: Progress)
    ensures var e := EffectsAt(p);
            && (p.Doubtful? || p.Declined? || p.Paid? ==>
                  Settles(e) == 1 && e[..3] == [VerifyCall, ProbeCall, SettleCall])
            && (!(p.Doubtful? || p.Declined? || p.Paid?) ==> SettleCall !in e && Settles(e) == 0)
            && (PromoteBatch in e || AppendLeaf in e <==> p.Paid?)
  {
    var e := EffectsAt(p);
    if |e| >= 3 { assert e[..3] == [VerifyCall, ProbeCall, SettleCall]; }
  }

  /** A settle call is made at most once, and only after verification and the winner gate;
      promotion and the log leaf only follow an accepted one. */
  lemma SettleIsGuarded(codec: Codec, req: Request, w: World)
    ensures var e := Effects(codec, req, w);
            && Settles(e) == (if SettleCall in e then 1 else 0)
            && (SettleCall in e ==>
                 && e[..3] == [VerifyCall, ProbeCall, SettleCall]
                 && VerifyOk(w.verify) && w.badBody.None? && Billable(w)
                 && (req.routeBinding ==> w.binding.Some?))
            && (PromoteBatch in e || AppendLeaf in e <==> MoneyOf(codec, req, w).Moved?)
  {
    hide Classify, WireAccepted, WireRefused, SanitizeReceipt;
    EffectsAreOrdered(ProgressOf(codec, req, w));
    ClassifyReadsTheWire(codec, w.settle, req.rail);
    if Classify(codec, w.settle, req.rail).Accepted? { AcceptedReceiptStands(codec, w.settle, req.rail); }
  }

  /** A 400 always precedes the settle call, so its reservation may be dropped. */
  lemma BadRequestsNeverSettle(codec: Codec, req: Request, w: World)
    ensures Result(codec, req, w).code == 400 ==> SettleCall !in Effects(codec, req, w)
  {
    var p := ProgressOf(codec, req, w);
    EffectsAreOrdered(p);
    if p.Paid? { assert OutcomeAt(codec, req, w, p).code != 400; }
  }

  /** The bill the caller must be shown for what really happened to the money. */
  function TrueBill(rail: string, money: Money, state: string): Json {
    match money
    case Untouched => Billing(rail, JBool(false), JBool(false), state)
    case Moved(_) => Billing(rail, JBool(true), JBool(true), "settled")
    case Kept => Billing(rail, JBool(true), JBool(false), "rejected")
    case InDoubt => Billing(rail, JBool(true), JNull, "unknown")
  }

  /** The gate turned a verified request away. */
  predicate TurnedAway(req: Request, w: World) {
    w.verifyTime > 0 && VerifyOk(w.verify) && !(Billable(w) && (req.routeBinding ==> w.binding.Some?))
  }

  lemma BillAt(codec: Codec, req: Request, w: World, p: Progress)
    requires p.BadBody? ==> w.badBody.Some?
    requires p.Paid? ==> w.probe.JDict?
    ensures OutcomeAt(codec, req, w, p).code != 400 ==>
              Bill(OutcomeAt(codec, req, w, p)) ==
              match p
              case Paid(_) => Billing(req.rail, JBool(true), JBool(true), "settled")
              case Declined => Billing(req.rail, JBool(true), JBool(false), "rejected")
              case Doubtful => Billing(req.rail, JBool(true), JNull, "unknown")
              case NoWinner => NotAttempted(req.rail)
              case NoBinding => NotAttempted(req.rail)
              case _ => Billing(req.rail, JBool(false), JBool(false), "rejected")
  {
  }

  lemma MoneyAt(codec: Codec, req: Request, w: World)
    ensures var p := ProgressOf(codec, req, w);
            MoneyOf(codec, req, w) ==
            (match p
             case Paid(receipt) => Moved(receipt)
             case Declined => Kept
             case Doubtful => InDoubt
             case _ => Untouched)
  {
    hide Classify, WireAccepted, WireRefused, SanitizeReceipt;
    EffectsAreOrdered(ProgressOf(codec, req, w));
    ClassifyReadsTheWire(codec, w.settle, req.rail);
    if Classify(codec, w.settle, req.rail).Accepted? { AcceptedReceiptStands(codec, w.settle, req.rail); }
  }

  /** Billing tells the truth: every outcome but a 400 carries exactly the bill of what happened,
      and exactly a moved payment comes with the receipt of its one accepted call. */
  lemma BillingIsTruthful(codec: Codec, req: Request, w: World)
    ensures var out := Result(codec, req, w);
            var money := MoneyOf(codec, req, w);
            out.code != 400 ==>
              && Bill(out) == TrueBill(req.rail, money, if TurnedAway(req, w) then "not_attempted" else "rejected")
              && Receipt(out) == (if money.Moved? then JStr(codec.header(money.receipt)) else JNull)
  {
    hide Bill, Receipt, OutcomeAt, ProgressOf, TurnedAway, MoneyOf, Billing;
    var p := ProgressOf(codec, req, w);
    ProgressIs(codec, req, w);
    MoneyAt(codec, req, w);
    ReceiptAt(codec, req, w, p);
    BillAt(codec, req, w, p);
    GateTurnsAway(codec, req, w);
  }

  lemma ProgressIs(codec: Codec, req: Request, w: World)
    ensures var p := ProgressOf(codec, req, w);
            (p.BadBody? ==> w.badBody.Some?) && (p.Paid? ==> w.probe.JDict?)
            && Result(codec, req, w) == OutcomeAt(codec, req, w, p)
  {
    hide OutcomeAt;
  }

  /** Being turned away by the gate is ending without a winner or its binding. */
  lemma GateTurnsAway(codec: Codec, req: Request, w: World)
    ensures var p := ProgressOf(codec, req, w);
            && (p.NoWinner? || p.NoBinding? ==> TurnedAway(req, w))
            && (TurnedAway(req, w) && Result(codec, req, w).code != 400 ==> p.NoWinner? || p.NoBinding?)
  {
  }

  function Receipt(o: Outcome): Json {
    if o.extra.JDict? then Field(o.extra.fields, "PAYMENT-RESPONSE") else JNull
  }

  lemma ReceiptAt(codec: Codec, req: Request, w: World, p: Progress)
    requires p.BadBody? ==> w.badBody.Some?
    requires p.Paid? ==> w.probe.JDict?
    ensures Receipt(OutcomeAt(codec, req, w, p)) == if p.Paid? then JStr(codec.header(p.receipt)) else JNull
  {
    assert "PAYMENT-RESPONSE" != "PAYMENT-REQUIRED";
  }
}
