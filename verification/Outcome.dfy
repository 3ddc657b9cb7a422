/** Route outcomes and what the replay guard stores and replays of them
    (live402/replay.py, with the settlement receipts of live402/payment.py). */
module Outcomes {
  import opened Collections
  import opened Json
  import Text

  /** (status code, JSON body, extra headers) */
  datatype Outcome = Outcome(code: int, body: Json, extra: Json)

  const BASE_CAIP2 := "eip155:8453"
  const SOLANA_MAINNET := "solana:5eykt4UsFv8P8NJdTREpY1vzqKqZKvdp"
  const ALGORAND_MAINNET := "algorand:wGHE2Pwdvd7S12BL5FaOP20EGYesN73ktiC1qzkkit8="

  const BILLING_MODEL := "success_only_v1"
  const SETTLEMENT_CONDITION := "live_eligible_route_found"
  const AMOUNT_ATOMIC := "3000"
  const AMOUNT_USD := "$0.003"

  predicate Supported(rail: string) {
    rail == "base" || rail == "solana" || rail == "algorand"
  }

  predicate SupportedValue(rail: Json) {
    rail.JStr? && Supported(rail.text)
  }

  /** The one network identifier a receipt for this rail must carry. */
  function Caip(rail: string): string
    requires Supported(rail)
  {
    if rail == "base" then BASE_CAIP2 else if rail == "solana" then SOLANA_MAINNET else ALGORAND_MAINNET
  }

  /** rail_of_network: the rail names and the folded network identifiers. */
  function RailOfNetwork(network: string): Option<string> {
    var n := Text.Lower(Text.Strip(network));
    if n == "" then None
    else if n == "base" || n == BASE_CAIP2 then Some("base")
    else if n == "solana" || n == "solana:5eykt4usfv8p8njdtrepy1vzqkqzkvdp" then Some("solana")
    else if n == "algorand" || n == "algorand:wghe2pwdvd7s12bl5faop20egyesn73ktic1qzkkit8=" then Some("algorand")
    else None
  }

  /** The checks on identifiers and the two text codecs that receipts pass through.
      They are arbitrary functions here. */
  datatype Codec = Codec(
    json: JsonText,
    /** _settlement_txid_ok and valid_payto_for_rail */
    txidOk: (string, string) -> bool,
    payerOk: (string, string) -> bool,
    /** payment_response_header and _decode_payment_blob */
    header: Fields -> string,
    blob: string -> Option<Fields>)
  {
    ghost predicate Inverse() {
      && json.Inverse()
      && (forall f :: blob(header(f)) == Some(f))
    }
  }

  /** The checks of sanitize_settlement_receipt, in its order. */
  predicate ValidReceipt(codec: Codec, success: Json, network: Json, transaction: Json, payer: Json, rail: Json) {
    IsTrue(success) && network.JStr? && |network.text| <= 128
    && (var inferred := RailOfNetwork(network.text);
        var expected := if SupportedValue(rail) then Some(rail.text) else inferred;
        && expected.Some? && Supported(expected.value) && inferred == expected
        && network.text == Caip(expected.value)
        && transaction.JStr? && transaction.text != "" && |transaction.text| <= 128
        && codec.txidOk(transaction.text, expected.value)
        && (payer.JNull? || (payer.JStr? && |payer.text| <= 128 && codec.payerOk(payer.text, expected.value))))
  }

  /** sanitize_settlement_receipt: the allowlisted fields of one receipt, or None. */
  function SanitizeReceipt(codec: Codec, payload: Fields, rail: Json): (r: Option<Fields>)
    ensures r.Some? ==> forall k :: k in r.value ==> k in payload && r.value[k] == payload[k]
  {
    var network, transaction := Field(payload, "network"), Field(payload, "transaction");
    var payer := Field(payload, "payer");
    if !ValidReceipt(codec, Field(payload, "success"), network, transaction, payer, rail) then None
    else
      var out := map["success" := JBool(true), "transaction" := transaction, "network" := network];
      Some(if payer.JNull? then out else out["payer" := payer])
  }

  lemma ReceiptIsFixed(codec: Codec, payload: Fields, rail: Json)
    requires SanitizeReceipt(codec, payload, rail).Some?
    ensures SanitizeReceipt(codec, SanitizeReceipt(codec, payload, rail).value, rail)
            == SanitizeReceipt(codec, payload, rail)
  {
    var out := SanitizeReceipt(codec, payload, rail).value;
    assert Field(out, "success") == Field(payload, "success");
    assert Field(out, "network") == Field(payload, "network");
    assert Field(out, "transaction") == Field(payload, "transaction");
    assert Field(out, "payer") == Field(payload, "payer");
  }

  /** The field is there with exactly this value. */
  predicate Says(d: Fields, key: string, value: Json) {
    key in d && d[key] == value
  }

  /** A valid receipt of one rail, read field by field. */
  predicate ReceiptOn(codec: Codec, body: Fields, rail: string) {
    && Says(body, "success", JBool(true))
    && Says(body, "network",
            JStr(if rail == "base" then "eip155:8453"
                 else if rail == "solana" then "solana:5eykt4UsFv8P8NJdTREpY1vzqKqZKvdp"
                 else "algorand:wGHE2Pwdvd7S12BL5FaOP20EGYesN73ktiC1qzkkit8="))
    && "transaction" in body && body["transaction"].JStr? && 0 < |body["transaction"].text| <= 128
    && codec.txidOk(body["transaction"].text, rail)
    && ("payer" in body && body["payer"] != JNull ==>
          body["payer"].JStr? && |body["payer"].text| <= 128 && codec.payerOk(body["payer"].text, rail))
  }

  /** The allowlisted fields of such a receipt. */
  function ReceiptFields(body: Fields): Fields
    requires "transaction" in body && "network" in body
  {
    var receipt := map["success" := JBool(true), "transaction" := body["transaction"], "network" := body["network"]];
    if "payer" in body && body["payer"] != JNull then receipt["payer" := body["payer"]] else receipt
  }

  /** A network identifier without spaces at its ends is looked up by its lower case. */
  lemma NetworkFolds(network: string, low: string)
    requires network != "" && !Text.IsSpace(network[0]) && !Text.IsSpace(network[|network| - 1])
    requires |low| == |network| && forall i :: 0 <= i < |low| ==> Text.LowerChar(network[i]) == low[i]
    ensures Text.Lower(Text.Strip(network)) == low
  {
    Text.LowerIs(network, low);
  }

  lemma BaseFolds()
    ensures Text.Lower(Text.Strip("eip155:8453")) == "eip155:8453"
  {
    hide Text.Lower, Text.Strip;
    NetworkFolds("eip155:8453", "eip155:8453");
  }

  lemma SolanaFolds()
    ensures Text.Lower(Text.Strip("solana:5eykt4UsFv8P8NJdTREpY1vzqKqZKvdp"))
            == "solana:5eykt4usfv8p8njdtrepy1vzqkqzkvdp"
  {
    hide Text.Lower, Text.Strip;
    var network, low := "solana:5eykt4UsFv8P8NJdTREpY1vzqKqZKvdp", "solana:5eykt4usfv8p8njdtrepy1vzqkqzkvdp";
    NetworkFolds(network, low);
  }

  /** The 53 characters in two parts. */
  lemma AlgorandParts()
    ensures "algorand:wGHE2Pwdvd7S12BL5F" + "aOP20EGYesN73ktiC1qzkkit8="
            == "algorand:wGHE2Pwdvd7S12BL5FaOP20EGYesN73ktiC1qzkkit8="
    ensures "algorand:wghe2pwdvd7s12bl5f" + "aop20egyesn73ktic1qzkkit8="
            == "algorand:wghe2pwdvd7s12bl5faop20egyesn73ktic1qzkkit8="
  {
  }

  lemma AlgorandFolds()
    ensures Text.Lower(Text.Strip("algorand:wGHE2Pwdvd7S12BL5FaOP20EGYesN73ktiC1qzkkit8="))
            == "algorand:wghe2pwdvd7s12bl5faop20egyesn73ktic1qzkkit8="
  {
    hide Text.Lower, Text.Strip;
    var front, back := "algorand:wGHE2Pwdvd7S12BL5F", "aOP20EGYesN73ktiC1qzkkit8=";
    var lowFront, lowBack := "algorand:wghe2pwdvd7s12bl5f", "aop20egyesn73ktic1qzkkit8=";
    AlgorandParts();
    assert forall i :: 0 <= i < |front| ==> Text.LowerChar(front[i]) == lowFront[i];
    assert forall i :: 0 <= i < |back| ==> Text.LowerChar(back[i]) == lowBack[i];
    NetworkFolds(front + back, lowFront + lowBack);
  }

  /** The network identifier of each rail is read as that rail. */
  lemma CaipsAreTheirRails()
    ensures RailOfNetwork("eip155:8453") == Some("base")
    ensures RailOfNetwork("solana:5eykt4UsFv8P8NJdTREpY1vzqKqZKvdp") == Some("solana")
    ensures RailOfNetwork("algorand:wGHE2Pwdvd7S12BL5FaOP20EGYesN73ktiC1qzkkit8=") == Some("algorand")
  {
    hide Text.Lower, Text.Strip;
    BaseFolds();
    SolanaFolds();
    AlgorandFolds();
  }

  /** The sanitizer accepts exactly the valid receipts: of the asked rail, or of the rail it names
      when none of the three is asked for; and it keeps the allowlisted fields. */
  lemma ReceiptIff(codec: Codec, body: Fields, rail: string)
    ensures SanitizeReceipt(codec, body, JStr(rail)).Some? <==>
              if rail in {"base", "solana", "algorand"} then ReceiptOn(codec, body, rail)
              else ReceiptOn(codec, body, "base") || ReceiptOn(codec, body, "solana")
                   || ReceiptOn(codec, body, "algorand")
    ensures SanitizeReceipt(codec, body, JStr(rail)).Some? ==>
              "transaction" in body && "network" in body
              && SanitizeReceipt(codec, body, JStr(rail)).value == ReceiptFields(body)
  {
    hide RailOfNetwork;
    CaipsAreTheirRails();
  }

  // ---- _sanitize_outcome -------------------------------------------------------------------

  function NormKey(key: string): string {
    Text.Lower(Text.Underscored(key))
  }

  predicate BlockedContainer(key: string) {
    NormKey(key) in {"facilitator_response", "headers", "payment_payload", "paymentpayload", "request_headers"}
  }

  predicate BlockedTopLevel(key: string) {
    NormKey(key) in {"authorization", "errorreason", "invalidreason", "signature"}
  }

  predicate Blocked(key: string, depth: nat) {
    BlockedContainer(key) || (depth == 0 && BlockedTopLevel(key))
  }

  const MAX_DEPTH := 16
  const MAX_LIST := 256

  function Cleanse(v: Json, depth: nat): Json
    ensures v.JDict? && depth <= MAX_DEPTH ==> Cleanse(v, depth).JDict?
    decreases v
  {
    if depth > MAX_DEPTH then JNull
    else
      match v
      case JDict(m) =>
        JDict(map k | k in m && !Blocked(k, depth) :: Cleanse(m[k], depth + 1))
      case JList(xs) =>
        var kept := if |xs| > MAX_LIST then xs[..MAX_LIST] else xs;
        JList(seq(|kept|, i requires 0 <= i < |kept| => assert kept[i] in xs; Cleanse(kept[i], depth + 1)))
      case _ => v
  }

  function CleanseFields(m: Fields, depth: nat): Fields
    requires depth <= MAX_DEPTH
  {
    Cleanse(JDict(m), depth).fields
  }

  lemma {:induction false} CleanseIdempotent(v: Json, depth: nat)
    ensures Cleanse(Cleanse(v, depth), depth) == Cleanse(v, depth)
    decreases v
  {
    hide Blocked;
    if depth <= MAX_DEPTH {
      match v
      case JDict(m) =>
        forall k | k in m ensures Cleanse(Cleanse(m[k], depth + 1), depth + 1) == Cleanse(m[k], depth + 1) {
          CleanseIdempotent(m[k], depth + 1);
        }
      case JList(xs) =>
        var once, twice := Cleanse(v, depth), Cleanse(Cleanse(v, depth), depth);
        assert |once.items| == |twice.items|;
        forall i | 0 <= i < |once.items| ensures twice.items[i] == once.items[i] {
          assert once.items[i] == Cleanse(xs[i], depth + 1);
          CleanseIdempotent(xs[i], depth + 1);
        }
      case _ =>
    }
  }

  const REDACTED := JStr("Payment processing failed")

  function SafeBody(code: int, body: Json): (r: Fields) {
    var clean := if body.JDict? then CleanseFields(body.fields, 0) else map[];
    if code == 402 && "error" in clean then clean["error" := REDACTED] else clean
  }

  /** The receipt header a stored outcome may keep: only for a settled bill. */
  function SafeReceipt(codec: Codec, billing: Json, extra: Fields): Fields {
    var header := Field(extra, "PAYMENT-RESPONSE");
    if header.JStr? && billing.JDict?
       && IsTrue(Field(billing.fields, "settlement_attempted")) && IsTrue(Field(billing.fields, "settled")) then
      match codec.blob(header.text)
      case None => map[]
      case Some(decoded) =>
        match SanitizeReceipt(codec, decoded, Field(billing.fields, "rail"))
        case None => map[]
        case Some(receipt) => map["PAYMENT-RESPONSE" := JStr(codec.header(receipt))]
    else map[]
  }

  function SafeExtra(codec: Codec, billing: Json, extra: Json): Json {
    if !extra.JDict? then JNull
    else
      var kept := SafeReceipt(codec, billing, extra.fields);
      var required := Field(extra.fields, "PAYMENT-REQUIRED");
      if required.JStr? then JDict(kept["PAYMENT-REQUIRED" := required])
      else if kept == map[] then JNull
      else JDict(kept)
  }

  function Sanitize(codec: Codec, o: Outcome): (r: Outcome)
    ensures r.code == o.code && r.body.JDict? && (r.extra.JNull? || r.extra.JDict?)
  {
    var body := SafeBody(o.code, o.body);
    Outcome(o.code, JDict(body), SafeExtra(codec, Field(body, "billing"), o.extra))
  }

  /** Fields that redaction leaves as they are. */
  ghost predicate Clean(m: Fields) {
    forall k :: k in m ==> !Blocked(k, 0) && Cleanse(m[k], 1) == m[k]
  }

  lemma CleanFieldsAreFixed(m: Fields)
    requires Clean(m)
    ensures CleanseFields(m, 0) == m
  {
  }

  lemma CleansedFieldsAreClean(m: Fields)
    ensures Clean(CleanseFields(m, 0))
  {
    forall k | k in m ensures Cleanse(Cleanse(m[k], 1), 1) == Cleanse(m[k], 1) {
      CleanseIdempotent(m[k], 1);
    }
  }

  lemma ErrorIsNotBlocked()
    ensures !Blocked("error", 0)
  {
    assert NormKey("error") == "error";
  }

  lemma SafeBodyIdempotent(code: int, body: Json)
    ensures SafeBody(code, JDict(SafeBody(code, body))) == SafeBody(code, body)
  {
    ErrorIsNotBlocked();
    if body.JDict? { CleansedFieldsAreClean(body.fields); }
    assert Clean(SafeBody(code, body));
    CleanFieldsAreFixed(SafeBody(code, body));
  }

  lemma SafeReceiptIdempotent(codec: Codec, billing: Json, extra: Fields)
    requires codec.Inverse()
    ensures SafeReceipt(codec, billing, SafeReceipt(codec, billing, extra)) == SafeReceipt(codec, billing, extra)
  {
    var kept := SafeReceipt(codec, billing, extra);
    if kept != map[] {
      var rail := Field(billing.fields, "rail");
      var decoded := codec.blob(Field(extra, "PAYMENT-RESPONSE").text).value;
      ReceiptIsFixed(codec, decoded, rail);
      var receipt := SanitizeReceipt(codec, decoded, rail).value;
      assert Field(kept, "PAYMENT-RESPONSE") == JStr(codec.header(receipt));
    }
  }

  /** The receipt header is read from one field of the extra headers only. */
  lemma SafeReceiptReads(codec: Codec, billing: Json, e1: Fields, e2: Fields)
    requires Field(e1, "PAYMENT-RESPONSE") == Field(e2, "PAYMENT-RESPONSE")
    ensures SafeReceipt(codec, billing, e1) == SafeReceipt(codec, billing, e2)
  {
  }

  lemma SafeExtraIdempotent(codec: Codec, billing: Json, extra: Json)
    requires codec.Inverse()
    ensures SafeExtra(codec, billing, SafeExtra(codec, billing, extra)) == SafeExtra(codec, billing, extra)
  {
    if extra.JDict? {
      var kept := SafeReceipt(codec, billing, extra.fields);
      SafeReceiptIdempotent(codec, billing, extra.fields);
      var once := SafeExtra(codec, billing, extra);
      if once.JDict? {
        assert "PAYMENT-RESPONSE" != "PAYMENT-REQUIRED";
        assert "PAYMENT-REQUIRED" !in kept;
        assert Field(once.fields, "PAYMENT-RESPONSE") == Field(kept, "PAYMENT-RESPONSE");
        SafeReceiptReads(codec, billing, once.fields, kept);
      }
    }
  }

  /** Redacting an already redacted outcome changes nothing. */
  lemma SanitizeIdempotent(codec: Codec, o: Outcome)
    requires codec.Inverse()
    ensures Sanitize(codec, Sanitize(codec, o)) == Sanitize(codec, o)
  {
    SafeBodyIdempotent(o.code, o.body);
    SafeExtraIdempotent(codec, Field(SafeBody(o.code, o.body), "billing"), o.extra);
  }

  // ---- the durable text of an outcome ------------------------------------------------------

  function Packed(o: Outcome): Json {
    JDict(map["c" := JInt(o.code), "b" := o.body, "e" := o.extra])
  }

  function Unpacked(v: Json): Option<Outcome> {
    if !v.JDict? then None
    else
      var d := v.fields;
      if "c" in d && "b" in d && "e" in d && d["c"].JInt? && d["b"].JDict? && (d["e"].JNull? || d["e"].JDict?) then
        Some(Outcome(d["c"].number, d["b"], d["e"]))
      else None
  }

  lemma UnpackedPacked(o: Outcome)
    requires o.body.JDict? && (o.extra.JNull? || o.extra.JDict?)
    ensures Unpacked(Packed(o)) == Some(o)
  {
    assert "c" != "b" && "c" != "e" && "b" != "e";
  }

  function Encode(codec: Codec, o: Outcome): string {
    codec.json.dumps(Packed(Sanitize(codec, o)))
  }

  function Decode(codec: Codec, raw: string): Option<Outcome> {
    match codec.json.loads(raw)
    case None => None
    case Some(v) =>
      match Unpacked(v)
      case None => None
      case Some(o) => Some(Sanitize(codec, o))
  }

  /** What is read back from the ledger is exactly the sanitized outcome. */
  lemma DecodeEncode(codec: Codec, o: Outcome)
    requires codec.Inverse()
    ensures Decode(codec, Encode(codec, o)) == Some(Sanitize(codec, o))
  {
    var s := Sanitize(codec, o);
    SanitizeIdempotent(codec, o);
    UnpackedPacked(s);
    assert codec.json.loads(codec.json.dumps(Packed(s))) == Some(Packed(s));
  }

  // ---- the ledger state an outcome stands for ----------------------------------------------

  datatype LedgerState = Pending | Unknown | Settled | NotSettled | Rejected | Other(name: string)

  predicate NonTerminal(s: LedgerState) { s.Pending? || s.Unknown? }
  predicate Terminal(s: LedgerState) { s.Settled? || s.NotSettled? || s.Rejected? }

  /** The identity checks that come before the state of a bill is read. */
  predicate OurBill(b: Fields) {
    && Field(b, "model") == JStr(BILLING_MODEL)
    && Field(b, "condition") == JStr(SETTLEMENT_CONDITION)
    && Field(b, "asset") == JStr("USDC")
    && Field(b, "amount_atomic") == JStr(AMOUNT_ATOMIC)
    && Field(b, "display_amount") == JStr(AMOUNT_USD)
    && SupportedValue(Field(b, "rail"))
  }

  /** `value in (True, None)`, where Python compares 1 and 1.0 equal to True. */
  predicate TrueOrNone(v: Json) {
    v == JNull || v == JBool(true) || v == JInt(1) || v == JFloat("1.0")
  }

  function ExplicitState(o: Outcome): Option<LedgerState> {
    if (o.code != 200 && o.code != 503) || !o.body.JDict? then None
    else
      var billing := Field(o.body.fields, "billing");
      if !billing.JDict? || !OurBill(billing.fields) then None
      else
        var attempted := Field(billing.fields, "settlement_attempted");
        var settled := Field(billing.fields, "settled");
        var state := Field(billing.fields, "settlement_state");
        var dead := o.code == 503 && IsFalse(Field(o.body.fields, "live"));
        if state == JStr("settled") && IsTrue(attempted) && IsTrue(settled) then Some(Settled)
        else if state == JStr("not_attempted") && IsFalse(attempted) && IsFalse(settled) && dead then Some(NotSettled)
        else if state == JStr("rejected") && attempted.JBool? && IsFalse(settled) && o.code == 402 then Some(Rejected)
        else if state == JStr("unknown") && TrueOrNone(attempted) && settled == JNull && o.code == 503 then
          Some(Unknown)
        else if attempted.JBool? && settled.JBool? then
          if settled.flag && attempted.flag then Some(Settled)
          else if !settled.flag && !attempted.flag && dead then Some(NotSettled)
          else None
        else None
  }

  /** The state column _ledger_finish writes for a cached outcome. */
  function StateOf(o: Outcome): LedgerState {
    match ExplicitState(o)
    case Some(state) => state
    case None => if o.code == 200 || o.code == 503 then Settled else Rejected
  }
}
