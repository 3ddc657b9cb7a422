/** What redaction takes out of an outcome and what it leaves (live402/replay.py, _sanitize_outcome),
    with the redacted names and limits spelled out. */
module Redaction {
  import opened Collections
  import opened Json
  import opened Outcomes
  import opened PaidRoute
  import opened LedgerClass
  import opened SettleAnswer
  import Text

  // ---- names --------------------------------------------------------------------------------

  /** The key is this name up to case, with dashes for underscores. */
  predicate Spells(key: string, name: string) {
    |key| == |name|
    && forall i :: 0 <= i < |key| ==> Text.LowerChar(if key[i] == '-' then '_' else key[i]) == name[i]
  }

  /** The names that are redacted in every dictionary, and those that are redacted at the top only. */
  predicate Secret(key: string, depth: nat) {
    || Spells(key, "facilitator_response") || Spells(key, "headers") || Spells(key, "payment_payload")
    || Spells(key, "paymentpayload") || Spells(key, "request_headers")
    || (depth == 0 && (Spells(key, "authorization") || Spells(key, "errorreason") || Spells(key, "invalidreason")
                       || Spells(key, "signature")))
  }

  lemma {:induction false} UnderscoredAt(s: string, i: nat)
    requires i < |s|
    ensures Text.Underscored(s)[i] == if s[i] == '-' then '_' else s[i]
  {
    if i > 0 { UnderscoredAt(s[1..], i - 1); }
  }

  lemma SpellsIff(key: string, name: string)
    ensures NormKey(key) == name <==> Spells(key, name)
  {
    var plain := Text.Underscored(key);
    forall i | 0 <= i < |key| ensures plain[i] == if key[i] == '-' then '_' else key[i] { UnderscoredAt(key, i); }
    hide Text.Lower, Text.Underscored, Text.LowerChar;
    if |name| == |key| {
      Text.LowerIs(plain, name);
    }
  }

  lemma SecretIff(key: string, depth: nat)
    ensures Blocked(key, depth) <==> Secret(key, depth)
  {
    hide NormKey, Spells;
    SpellsIff(key, "facilitator_response");
    SpellsIff(key, "headers");
    SpellsIff(key, "payment_payload");
    SpellsIff(key, "paymentpayload");
    SpellsIff(key, "request_headers");
    SpellsIff(key, "authorization");
    SpellsIff(key, "errorreason");
    SpellsIff(key, "invalidreason");
    SpellsIff(key, "signature");
  }

  // ---- values -------------------------------------------------------------------------------

  /** Nothing to redact: no secret name in any dictionary, no list of more than 256 items, at most 16 levels. */
  ghost predicate Harmless(v: Json, depth: nat)
    decreases v
  {
    if depth > 16 then v == JNull
    else
      match v
      case JDict(m) => forall k :: k in m ==> !Secret(k, depth) && Harmless(m[k], depth + 1)
      case JList(xs) => |xs| <= 256 && forall i :: 0 <= i < |xs| ==> Harmless(xs[i], depth + 1)
      case _ => true
  }

  /** Exactly the harmless values pass unchanged. */
  lemma {:induction false} UnchangedIff(v: Json, depth: nat)
    ensures Cleanse(v, depth) == v <==> Harmless(v, depth)
    decreases v
  {
    hide Blocked, Secret;
    if depth <= 16 {
      match v
      case JDict(m) => DictUnchangedIff(m, depth);
      case JList(xs) => ListUnchangedIff(xs, depth);
      case _ =>
    }
  }

  lemma {:induction false} DictUnchangedIff(m: Fields, depth: nat)
    requires depth <= 16
    ensures Cleanse(JDict(m), depth) == JDict(m) <==> Harmless(JDict(m), depth)
    decreases JDict(m), 0
  {
    hide Blocked, Secret;
    forall k | k in m
      ensures Blocked(k, depth) <==> Secret(k, depth)
      ensures Cleanse(m[k], depth + 1) == m[k] <==> Harmless(m[k], depth + 1)
    {
      SecretIff(k, depth);
      UnchangedIff(m[k], depth + 1);
    }
    var r := Cleanse(JDict(m), depth).fields;
    if r == m {
      forall k | k in m ensures !Blocked(k, depth) && Cleanse(m[k], depth + 1) == m[k] { assert k in r; }
    }
    if Harmless(JDict(m), depth) { assert r == m; }
  }

  lemma {:induction false} ListUnchangedIff(xs: seq<Json>, depth: nat)
    requires depth <= 16
    ensures Cleanse(JList(xs), depth) == JList(xs) <==> Harmless(JList(xs), depth)
    decreases JList(xs), 0
  {
    hide Blocked, Secret;
    forall i | 0 <= i < |xs| ensures Cleanse(xs[i], depth + 1) == xs[i] <==> Harmless(xs[i], depth + 1) {
      UnchangedIff(xs[i], depth + 1);
    }
    var r := Cleanse(JList(xs), depth).items;
    if |xs| <= 256 {
      assert |r| == |xs|;
      assert forall i :: 0 <= i < |xs| ==> r[i] == Cleanse(xs[i], depth + 1);
    }
  }

  /** Whatever goes in, what comes out is harmless. */
  lemma RedactedIsHarmless(v: Json, depth: nat)
    ensures Harmless(Cleanse(v, depth), depth)
  {
    hide Cleanse, Harmless;
    CleanseIdempotent(v, depth);
    UnchangedIff(Cleanse(v, depth), depth);
  }

  /** A dictionary loses exactly its secret names, and a list exactly what is beyond its first 256 items. */
  lemma OnlySecretsGo(v: Json, depth: nat)
    requires depth <= 16
    ensures v.JDict? ==> var r := Cleanse(v, depth);
              r.JDict? && forall k :: (k in r.fields <==> k in v.fields && !Secret(k, depth))
                                      && (k in r.fields ==> r.fields[k] == Cleanse(v.fields[k], depth + 1))
    ensures v.JList? ==> var r := Cleanse(v, depth);
              r.JList? && |r.items| == (if |v.items| < 256 then |v.items| else 256)
              && forall i :: 0 <= i < |r.items| ==> r.items[i] == Cleanse(v.items[i], depth + 1)
  {
    hide Blocked, Secret;
    if v.JDict? {
      forall k | k in v.fields ensures Blocked(k, depth) <==> Secret(k, depth) { SecretIff(k, depth); }
    }
  }

  /** The body of a stored or replayed outcome: harmless, and under a 402 an error says no more than that. */
  lemma BodyIsRedacted(codec: Codec, o: Outcome)
    ensures var s := Sanitize(codec, o);
            && s.code == o.code && s.body.JDict? && Harmless(s.body, 0)
            && (o.code == 402 && "error" in s.body.fields ==>
                  s.body.fields["error"] == JStr("Payment processing failed"))
            && (o.body.JDict? && o.code != 402 ==> s.body == Cleanse(o.body, 0))
            && (o.body.JDict? && o.code == 402 ==>
                  forall k :: (k in s.body.fields <==> k in Cleanse(o.body, 0).fields)
                              && (k in s.body.fields && k != "error" ==>
                                    s.body.fields[k] == Cleanse(o.body, 0).fields[k]))
            && (!o.body.JDict? ==> s.body == JDict(map[]))
  {
    hide Cleanse, Harmless, SafeExtra;
    SafeBodyIdempotent(o.code, o.body);
    var clean := if o.body.JDict? then Cleanse(o.body, 0) else JDict(map[]);
    if o.body.JDict? { RedactedIsHarmless(o.body, 0); } else { EmptyIsHarmless(); }
    TextIsHarmless(clean.fields, "error", "Payment processing failed");
  }

  lemma EmptyIsHarmless()
    ensures Harmless(JDict(map[]), 0)
  {
  }

  lemma TextIsHarmless(m: Fields, key: string, t: string)
    requires Harmless(JDict(m), 0)
    ensures key in m ==> Harmless(JDict(m[key := JStr(t)]), 0)
  {
  }

  // ---- receipts -----------------------------------------------------------------------------

  /** A kept receipt header is that of a valid receipt for the rail of a bill that says attempted and settled. */
  lemma KeptReceiptIsSettled(codec: Codec, o: Outcome)
    ensures var s := Sanitize(codec, o);
            Receipt(s) != JNull ==>
              && "billing" in s.body.fields && s.body.fields["billing"].JDict?
              && Says(s.body.fields["billing"].fields, "settlement_attempted", JBool(true))
              && Says(s.body.fields["billing"].fields, "settled", JBool(true))
              && exists receipt :: Receipt(s) == JStr(codec.header(receipt))
                                   && Says(receipt, "success", JBool(true))
  {
    hide SafeBody;
    assert "PAYMENT-RESPONSE" != "PAYMENT-REQUIRED";
    var s := Sanitize(codec, o);
    var billing := Field(s.body.fields, "billing");
    if Receipt(s) != JNull {
      var decoded := codec.blob(Field(o.extra.fields, "PAYMENT-RESPONSE").text).value;
      var receipt := SanitizeReceipt(codec, decoded, Field(billing.fields, "rail")).value;
      assert Receipt(s) == JStr(codec.header(receipt));
    }
  }

  /** The answer of an accepted payment keeps its receipt when it is stored, replayed or handed to a waiter. */
  lemma PaidReceiptIsKept(codec: Codec, req: Request, w: World)
    requires codec.Inverse() && Supported(req.rail)
    requires SettleCall in Effects(codec, req, w) && WireAccepted(codec, w.settle, req.rail)
    ensures Receipt(Sanitize(codec, Result(codec, req, w))) == JStr(codec.header(ReceiptFields(w.settle.body)))
  {
    hide Billing, Result, Effects, Cleanse, WireAccepted, WireRefused, SanitizeReceipt, ReceiptFields, Charged,
         Sanitize, Bill, Receipt;
    var o := Result(codec, req, w);
    BadRequestsNeverSettle(codec, req, w);
    BillTellsTheWire(codec, req, w);
    SettledBill(codec, req, w);
    AcceptedTwice(codec, w.settle, req.rail);
    KeepsReceipt(codec, o, ReceiptFields(w.settle.body), req.rail);
  }

  /** The bill of a paid outcome, redacted, is still that bill. */
  lemma SettledBill(codec: Codec, req: Request, w: World)
    requires Supported(req.rail)
    requires Charged(Result(codec, req, w), req.rail, JBool(true), JBool(true), "settled")
    requires SettleCall in Effects(codec, req, w) && WireAccepted(codec, w.settle, req.rail)
    ensures var bill := Bill(Sanitize(codec, Result(codec, req, w)));
            && bill.JDict?
            && IsTrue(Field(bill.fields, "settlement_attempted")) && IsTrue(Field(bill.fields, "settled"))
            && Field(bill.fields, "rail") == JStr(req.rail)
  {
    hide Billing, Result, Effects, Cleanse, WireAccepted, WireRefused, Sanitize;
    var o := Result(codec, req, w);
    BadRequestsNeverSettle(codec, req, w);
    BillingIsTruthful(codec, req, w);
    PaidMoves(codec, req, w);
    FieldsSurvive(codec, o);
    BillSurvives(req.rail, JBool(true), JBool(true), "settled");
    BillReads(req.rail);
  }

  lemma BillReads(rail: string)
    requires rail != ""
    ensures var bill := Billing(rail, JBool(true), JBool(true), "settled").fields;
            && IsTrue(Field(bill, "settlement_attempted")) && IsTrue(Field(bill, "settled"))
            && Field(bill, "rail") == JStr(rail)
  {
  }

  lemma AcceptedTwice(codec: Codec, call: CallResult, rail: string)
    requires WireAccepted(codec, call, rail)
    ensures call.CallOk? && "transaction" in call.body && "network" in call.body
    ensures SanitizeReceipt(codec, ReceiptFields(call.body), JStr(rail)) == Some(ReceiptFields(call.body))
  {
    hide SanitizeReceipt;
    ClassifyReadsTheWire(codec, call, rail);
    AcceptedReceiptStands(codec, call, rail);
  }

  lemma KeepsReceipt(codec: Codec, o: Outcome, receipt: Fields, rail: string)
    requires codec.Inverse() && Receipt(o) == JStr(codec.header(receipt))
    requires Bill(Sanitize(codec, o)).JDict?
    requires var bill := Bill(Sanitize(codec, o)).fields;
             IsTrue(Field(bill, "settlement_attempted")) && IsTrue(Field(bill, "settled"))
             && Field(bill, "rail") == JStr(rail)
    requires SanitizeReceipt(codec, receipt, JStr(rail)) == Some(receipt)
    ensures Receipt(Sanitize(codec, o)) == JStr(codec.header(receipt))
  {
    hide SafeBody, SanitizeReceipt;
    assert "PAYMENT-RESPONSE" != "PAYMENT-REQUIRED";
    assert codec.blob(codec.header(receipt)) == Some(receipt);
    var bill := Field(SafeBody(o.code, o.body), "billing");
    assert bill == Bill(Sanitize(codec, o));
    var kept := SafeReceipt(codec, bill, o.extra.fields);
    assert kept == map["PAYMENT-RESPONSE" := JStr(codec.header(receipt))];
    assert "PAYMENT-RESPONSE" in kept && kept != map[];
  }

  /** Of the extra headers only the receipt and the repeated challenge are kept, the challenge if it is a text. */
  lemma HeadersKept(codec: Codec, o: Outcome)
    ensures var s := Sanitize(codec, o);
            var challenge := o.extra.JDict? && "PAYMENT-REQUIRED" in o.extra.fields
                             && o.extra.fields["PAYMENT-REQUIRED"].JStr?;
            && (s.extra.JDict? ==> s.extra.fields != map[])
            && (s.extra.JDict? ==>
                 forall k :: k in s.extra.fields ==> k == "PAYMENT-RESPONSE" || k == "PAYMENT-REQUIRED")
            && (s.extra.JDict? && "PAYMENT-REQUIRED" in s.extra.fields <==> challenge)
            && (challenge ==> s.extra.JDict? && "PAYMENT-REQUIRED" in s.extra.fields
                              && s.extra.fields["PAYMENT-REQUIRED"] == o.extra.fields["PAYMENT-REQUIRED"])
  {
    hide SafeBody, SanitizeReceipt;
    assert "PAYMENT-RESPONSE" != "PAYMENT-REQUIRED";
    var s := Sanitize(codec, o);
    if o.extra.JDict? {
      var kept := SafeReceipt(codec, Field(s.body.fields, "billing"), o.extra.fields);
      assert forall k :: k in kept ==> k == "PAYMENT-RESPONSE";
      var required := Field(o.extra.fields, "PAYMENT-REQUIRED");
      assert required.JStr? ==> "PAYMENT-REQUIRED" in kept["PAYMENT-REQUIRED" := required];
    }
  }
}
