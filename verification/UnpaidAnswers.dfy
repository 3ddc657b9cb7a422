/** What a request does step by step, and what the caller is told when nothing was paid for
    (live402/route.py), stated on what the facilitator and the probe brought back. */
module UnpaidAnswers {
  import opened Collections
  import opened Json
  import opened Outcomes
  import opened PaidRoute
  import opened LedgerClass
  import opened SettleAnswer

  // ---- what is done -------------------------------------------------------------------------

  /** How many of verify, probe, settle, promotion and log leaf are done. */
  predicate GotTo(codec: Codec, req: Request, w: World, n: nat) {
    if w.verifyTime <= 0 then n == 0
    else if !WireVerified(w) || w.badBody.Some? then n == 1
    else if !WinnerFound(req, w) || w.settleTime <= 0 then n == 2
    else if !WireAccepted(codec, w.settle, req.rail) then n == 3
    else n == 5
  }

  /** Nothing is done out of turn: no probe without a verified payment, no settle call without a winner, no promotion
      or leaf without an accepted one; and whatever is allowed is done, once. */
  lemma DoneInTurn(codec: Codec, req: Request, w: World, n: nat)
    requires GotTo(codec, req, w, n)
    ensures n <= 5 && Effects(codec, req, w) == [VerifyCall, ProbeCall, SettleCall, PromoteBatch, AppendLeaf][..n]
  {
    hide WireAccepted, SettleProgress, WinnerFound, EffectsAt, PurportedWinner;
    var all := [VerifyCall, ProbeCall, SettleCall, PromoteBatch, AppendLeaf];
    assert all[..5] == all;
    var p := ProgressOf(codec, req, w);
    StepsOf(p);
    VerifiedIff(w);
    WinnerIff(req, w);
    if n >= 3 { AcceptedIff(codec, req, w); }
  }

  lemma StepsOf(p: Progress)
    ensures var all := [VerifyCall, ProbeCall, SettleCall, PromoteBatch, AppendLeaf];
            EffectsAt(p) == all[..match p
                                  case OutOfTime => 0
                                  case Unverified => 1
                                  case BadBody => 1
                                  case BadProbe => 2
                                  case NoWinner => 2
                                  case NoBinding => 2
                                  case TooLate => 2
                                  case Doubtful => 3
                                  case Declined => 3
                                  case Paid(_) => 5]
  {
  }

  lemma VerifiedIff(w: World)
    ensures w.verifyTime > 0 ==> (VerifyOk(w.verify) <==> WireVerified(w))
  {
  }

  lemma WinnerIff(req: Request, w: World)
    ensures WinnerFound(req, w) <==> w.probeCode != 400 && Billable(w) && (req.routeBinding ==> w.binding.Some?)
  {
    assert forall m: Fields, k: string, v: Json :: v != JNull ==> (Field(m, k) == v <==> Says(m, k, v));
  }

  lemma AcceptedIff(codec: Codec, req: Request, w: World)
    ensures SettleProgress(codec, req, w).Paid? <==> WireAccepted(codec, w.settle, req.rail)
    ensures SettleProgress(codec, req, w).Declined? <==> WireRefused(w.settle)
  {
    hide WireAccepted, WireRefused, SanitizeReceipt, Classify;
    ClassifyReadsTheWire(codec, w.settle, req.rail);
    WireIsOneThing(codec, w.settle, req.rail);
    if Classify(codec, w.settle, req.rail).Accepted? { AcceptedReceiptStands(codec, w.settle, req.rail); }
  }

  // ---- what is told -------------------------------------------------------------------------

  /** A 402: the challenge again, with the reason and the bill. */
  ghost predicate Rejected(out: Outcome, req: Request, error: string) {
    && out.code == 402 && out.body.JDict? && Says(out.body.fields, "error", JStr(error))
    && (forall k :: k != "error" && k != "billing" ==> SameAt(out.body.fields, req.required, k))
    && out.extra == JDict(map["PAYMENT-REQUIRED" := JStr(req.requiredHeader)])
  }

  /** A 503 that offers nothing and warns of a second try. */
  ghost predicate Unsettled(out: Outcome, rail: string, attempted: Json) {
    && out.code == 503 && out.body.JDict? && out.extra == JNull
    && Says(out.body.fields, "live", JBool(false)) && Says(out.body.fields, "payable", JBool(false))
    && Says(out.body.fields, "invocable", JBool(false)) && Says(out.body.fields, "selected_payment", JNull)
    && Says(out.body.fields, "miss_reason", JStr("settlement_unknown"))
    && Says(out.body.fields, "error",
            JStr("Routing authorization outcome unknown; do not retry this authorization"))
    && out.body.fields.Keys
       == {"error", "live", "payable", "invocable", "selected_payment", "miss_reason", "billing"}
    && Charged(out, rail, attempted, JNull, "unknown")
  }

  lemma RejectionTells(req: Request, error: string, attempted: bool)
    ensures Rejected(Rejection(req, error, attempted), req, error)
  {
  }

  lemma UnknownTells(rail: string, attempted: Json)
    ensures Unsettled(UnknownOutcome(rail, attempted), rail, attempted)
  {
    hide Billing, Charged;
    BillIsCharged(UnknownOutcome(rail, attempted), rail, attempted, JNull, "unknown");
  }

  /** What every request without a payment is told: an unverified one, one whose winner came too late and one that was
      refused get the challenge again with their reason; a bad body and a bad probe are handed on as they are; an
      answer in doubt offers nothing. */
  lemma ToldWhy(codec: Codec, req: Request, w: World)
    ensures var out, called := Result(codec, req, w), SettleCall in Effects(codec, req, w);
            && (!WireVerified(w) ==> Rejected(out, req, "Payment verification failed"))
            && (WireVerified(w) && w.badBody.Some? ==> out == Outcome(400, JDict(w.badBody.value), JNull))
            && (WireVerified(w) && w.badBody.None? && w.probeCode == 400 ==> out == Outcome(400, w.probe, JNull))
            && (WireVerified(w) && w.badBody.None? && WinnerFound(req, w) && w.settleTime <= 0 ==>
                  Rejected(out, req, "Payment settlement not attempted"))
            && (called && WireRefused(w.settle) ==> Rejected(out, req, "Payment settlement failed"))
            && (called && !WireRefused(w.settle) && !WireAccepted(codec, w.settle, req.rail) ==>
                  Unsettled(out, req.rail, JBool(true)))
  {
    hide WireAccepted, WireRefused, SettleProgress, Rejection, UnknownOutcome, Win, Unbound, Miss, Rejected, Unsettled,
         WinnerFound, Billable, EffectsAt;
    var p := ProgressOf(codec, req, w);
    StepsOf(p);
    VerifiedIff(w);
    WinnerIff(req, w);
    AcceptedIff(codec, req, w);
    RejectionTells(req, "Payment verification failed", false);
    RejectionTells(req, "Payment settlement not attempted", false);
    RejectionTells(req, "Payment settlement failed", true);
    UnknownTells(req.rail, JBool(true));
  }

  /** A winner whose binding is not there is zeroed like a refused one and says so. */
  lemma UnboundIsTold(codec: Codec, req: Request, w: World)
    requires WireVerified(w) && w.badBody.None? && !WinnerFound(req, w)
    requires WinnerFound(req.(routeBinding := false), w)
    ensures var out := Result(codec, req, w);
            && out.code == 503 && out.body.JDict? && out.extra == JNull
            && "decision_binding" !in out.body.fields
            && Says(out.body.fields, "binding_error", JStr("route_binding_unavailable"))
  {
    hide Downgraded, SettleProgress, NotAttempted;
    VerifiedIff(w);
    WinnerIff(req, w);
    WinnerIff(req.(routeBinding := false), w);
  }
}
