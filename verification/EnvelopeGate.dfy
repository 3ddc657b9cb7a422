/** Observed payment options and the settlement gate (live402/payment.py, live402/select.py): the
    options a route may pick come from validated accepts, and the gate, written independently,
    checks the selected one against the envelope again.
    Texts are trimmed and missing when blank; address, asset and USDC tests are any functions. */
module EnvelopeGate {
  import opened Amounts
  import opened Collections
  import opened Rails

  /** A JSON value where an integer is wanted. Something else than an integer may still coerce to
      a supported version. */
  datatype Whole = Int(n: int) | NotInt(coerces: bool) | Missing

  /** A JSON value where an amount is wanted. */
  datatype Wire = Text(s: string) | Junk | Blank

  datatype Accept = Accept(
    version: Whole, scheme: Option<string>, extraScheme: Option<string>, timeout: Whole, network: Option<Network>,
    amount: Wire, maxAmount: Wire, asset: Option<string>, payTo: Option<string>,
    display: Option<string>, facilitator: Option<string>)

  /** An accepts field: not there, there but no list, or a list (None: an entry that is no object). */
  datatype Accepts = Undeclared | NoList | Listed(items: seq<Option<Accept>>)

  /** The accepts of the envelope, of the target and of the result itself, and the accept that is
      made up from the other fields when none of the three is declared. */
  datatype Result = Result(version: Whole, envelope: Accepts, target: Accepts, own: Accepts, legacy: Accept)

  datatype Rules = Rules(
    validAsset: (string, Rail) -> bool, validPay: (string, Rail) -> bool, isUsdc: string -> bool,
    lower: string -> string, upper: string -> string, dollars: nat -> string, shown: (nat, string) -> string,
    cost: Accept -> Option<real>, settle: Rail -> Option<int>)

  // ---- amounts ------------------------------------------------------------------------------

  function CanonicalOf(w: Wire): Option<nat> {
    if w.Text? then Canonical(w.s) else None
  }

  /** The amount under the version's own name; the other name, when there, must agree. */
  function AmountOf(named: Wire, other: Wire): Option<nat> {
    var n := CanonicalOf(named);
    if n.Some? && other != Blank && other != Text("") && CanonicalOf(other) != n then None else n
  }

  // ---- validation ---------------------------------------------------------------------------

  predicate Supported(v: Whole) {
    v == Int(1) || v == Int(2)
  }

  /** _x402_version_ok on the envelope's version. */
  predicate Tolerated(v: Whole) {
    match v
    case Missing => true
    case Int(n) => n == 1 || n == 2
    case NotInt(coerces) => coerces
  }

  /** rail_of_observed_network: version 2 takes chain ids only. */
  function RailOf(network: Option<Network>, version: int): Option<Rail> {
    match network
    case Some(Chain(r)) => Some(r)
    case Some(Alias(r)) => if version == 1 then Some(r) else None
    case _ => None
  }

  /** asset_identity; an asset text always has one. */
  function AssetKeyOf(rules: Rules, rail: Rail, asset: string): AssetKey {
    if rules.isUsdc(asset) then KnownUsdc(rail)
    else match rail
         case Base => Asset(Base, rules.lower(asset))
         case Algorand => Asset(Algorand, rules.upper(asset))
         case Solana => Asset(Solana, asset)
  }

  /** The seller's own display amount counts only when the asset is no known USDC. */
  function DisplayOf(rules: Rules, a: Accept, asset: string, n: nat): string {
    if rules.isUsdc(asset) then rules.dollars(n)
    else if a.display.Some? then a.display.value
    else rules.shown(n, asset)
  }

  function Fields(rules: Rules, a: Accept, rail: Rail, network: Network, asset: string, payTo: string, n: nat): Opt {
    Opt(rail, network, asset, AssetKeyOf(rules, rail, asset), rules.isUsdc(asset), n,
        Some(DisplayOf(rules, a, asset, n)), payTo, a.facilitator, rules.cost(a), rules.settle(rail))
  }

  /** validate_observed_accept, with the part of is_complete_payment_option that it does not imply. */
  function Validate(rules: Rules, a: Accept, envelopeVersion: Whole): Option<Opt> {
    var version := if a.version == Missing then envelopeVersion else a.version;
    if !Supported(version) || !Tolerated(envelopeVersion) then None
    else if a.scheme != Some("exact") || (a.extraScheme.Some? && a.extraScheme != Some("exact")) then None
    else if !a.timeout.Int? || a.timeout.n < 1 || a.timeout.n > 86400 then None
    else
      var rail := RailOf(a.network, version.n);
      var n := if version.n == 2 then AmountOf(a.amount, a.maxAmount) else AmountOf(a.maxAmount, a.amount);
      if rail.None? || n.None? then None
      else if a.asset.None? || !rules.validAsset(a.asset.value, rail.value) then None
      else if a.payTo.None? || !rules.validPay(a.payTo.value, rail.value) then None
      else Some(Fields(rules, a, rail.value, a.network.value, a.asset.value, a.payTo.value, n.value))
  }

  /** Validated entries in order; what is no valid accept is left out. */
  function Valid(rules: Rules, items: seq<Option<Accept>>, version: Whole): seq<Opt>
    decreases |items|
  {
    if items == [] then []
    else
      var n := |items| - 1;
      var opt := if items[n].None? then None else Validate(rules, items[n].value, version);
      Valid(rules, items[..n], version) + if opt.Some? then [opt.value] else []
  }

  datatype Identity = Identity(rail: Rail, network: Network, asset: string, amount: nat)

  function IdentityOf(o: Opt): Identity {
    Identity(o.rail, o.network, o.asset, o.atomic)
  }

  function Identities(opts: seq<Opt>): set<Identity> {
    set o | o in opts :: IdentityOf(o)
  }

  lemma OneMore(opts: seq<Opt>, o: Opt)
    ensures Identities(opts + [o]) == Identities(opts) + {IdentityOf(o)}
    ensures forall p :: p in opts + [o] <==> p in opts || p == o
  {
  }

  /** _dedupe_options: the first of each rail, network, asset and amount. */
  function Dedupe(opts: seq<Opt>): (r: seq<Opt>)
    decreases |opts|
  {
    if opts == [] then []
    else
      var before := Dedupe(opts[..|opts| - 1]);
      var last := opts[|opts| - 1];
      if IdentityOf(last) in Identities(before) then before else before + [last]
  }

  /** No identity is lost, and nothing is made up. */
  lemma {:induction false} DedupeKeeps(opts: seq<Opt>)
    ensures Identities(Dedupe(opts)) == Identities(opts) && forall o :: o in Dedupe(opts) ==> o in opts
    decreases |opts|
  {
    hide Identities, IdentityOf;
    if opts != [] {
      var rest, last := opts[..|opts| - 1], opts[|opts| - 1];
      DedupeKeeps(rest);
      OneMore(rest, last);
      OneMore(Dedupe(rest), last);
      assert opts == rest + [last];
    }
  }

  method DedupeOptions(opts: seq<Opt>) returns (out: seq<Opt>)
    ensures out == Dedupe(opts)
  {
    hide Identities, IdentityOf;
    var seen := Identities([]);
    out := [];
    for i := 0 to |opts|
      invariant out == Dedupe(opts[..i])
      invariant seen == Identities(out)
    {
      assert opts[..i + 1][..i] == opts[..i];
      OneMore(out, opts[i]);
      if IdentityOf(opts[i]) !in seen {
        seen := seen + {IdentityOf(opts[i])};
        out := out + [opts[i]];
      }
    }
    assert opts[..|opts|] == opts;
  }

  /** The accepts that count: the first declared of envelope, target and result. */
  function Declared(r: Result): Accepts {
    if r.envelope != Undeclared then r.envelope else if r.target != Undeclared then r.target else r.own
  }

  /** payment_options_from_result: the made-up accept counts only when none is declared. */
  function Options(rules: Rules, r: Result): seq<Opt> {
    match Declared(r)
    case Listed(items) => Dedupe(Valid(rules, items, r.version))
    case NoList => []
    case Undeclared =>
      var made := Validate(rules, r.legacy, r.version);
      if made.Some? then [made.value] else []
  }

  /** ... and as the source runs it. */
  method PaymentOptions(rules: Rules, r: Result) returns (opts: seq<Opt>)
    ensures opts == Options(rules, r)
  {
    hide Validate, Dedupe;
    var declared := Declared(r);
    if declared.NoList? { return []; }
    if declared.Undeclared? {
      var made := Validate(rules, r.legacy, r.version);
      return if made.Some? then [made.value] else [];
    }
    var items := declared.items;
    var valid: seq<Opt> := [];
    for i := 0 to |items|
      invariant valid == Valid(rules, items[..i], r.version)
    {
      assert items[..i + 1][..i] == items[..i];
      if items[i].Some? {
        var o := Validate(rules, items[i].value, r.version);
        if o.Some? { valid := valid + [o.value]; }
      }
    }
    assert items[..|items|] == items;
    opts := DedupeOptions(valid);
  }

  // ---- the gate -----------------------------------------------------------------------------

  /** payto_equal on a rail */
  predicate SamePay(rules: Rules, a: string, b: string, rail: Rail) {
    match rail
    case Solana => a == b
    case Algorand => rules.upper(a) == rules.upper(b)
    case Base => rules.lower(a) == rules.lower(b)
  }

  predicate Agrees(rules: Rules, selected: Opt, o: Opt) {
    && o.rail == selected.rail && o.network == selected.network && o.atomic == selected.atomic
    && AssetKeyOf(rules, o.rail, o.asset) == AssetKeyOf(rules, selected.rail, selected.asset)
    && SamePay(rules, o.payTo, selected.payTo, selected.rail)
    && o == selected
  }

  /** selected_payment_matches_current_envelope */
  predicate Matches(rules: Rules, selected: Opt, r: Result) {
    && r.version.Int? && r.envelope.Listed? && r.envelope.items != [] && selected.atomic <= MAX_AMOUNT
    && exists i :: 0 <= i < |r.envelope.items| && r.envelope.items[i].Some?
         && Validate(rules, r.envelope.items[i].value, r.version).Some?
         && Agrees(rules, selected, Validate(rules, r.envelope.items[i].value, r.version).value)
  }

  /** ... and as the source runs it. */
  method MatchesCurrentEnvelope(rules: Rules, selected: Opt, r: Result) returns (ok: bool)
    ensures ok == Matches(rules, selected, r)
  {
    if !r.version.Int? || !r.envelope.Listed? || |r.envelope.items| == 0 { return false; }
    if selected.atomic > MAX_AMOUNT { return false; }
    var items := r.envelope.items;
    for i := 0 to |items|
      invariant forall k :: 0 <= k < i && items[k].Some? && Validate(rules, items[k].value, r.version).Some? ==>
                  !Agrees(rules, selected, Validate(rules, items[k].value, r.version).value)
    {
      if items[i].Some? {
        var o := Validate(rules, items[i].value, r.version);
        if o.Some? && Agrees(rules, selected, o.value) { return true; }
      }
    }
    return false;
  }

  // ---- picker and gate ----------------------------------------------------------------------

  lemma {:induction false} ValidMembers(rules: Rules, items: seq<Option<Accept>>, version: Whole, o: Opt)
    ensures o in Valid(rules, items, version)
            <==> exists i :: 0 <= i < |items| && items[i].Some? && Validate(rules, items[i].value, version) == Some(o)
    decreases |items|
  {
    hide Validate;
    if items != [] {
      var n := |items| - 1;
      ValidMembers(rules, items[..n], version, o);
      if i :| 0 <= i < |items| && items[i].Some? && Validate(rules, items[i].value, version) == Some(o) {
        assert i < n ==> items[..n][i] == items[i];
      }
      if o in Valid(rules, items[..n], version) {
        var i :| 0 <= i < n && items[..n][i].Some? && Validate(rules, items[..n][i].value, version) == Some(o);
        assert items[i] == items[..n][i];
      }
    }
  }

  lemma AmountFits(rules: Rules, a: Accept, version: Whole)
    ensures Validate(rules, a, version).Some? ==> Validate(rules, a, version).value.atomic <= MAX_AMOUNT
  {
    hide Number, Digits;
  }

  /** The gate lets through exactly the validated entries of a versioned envelope's list. */
  lemma GateIff(rules: Rules, selected: Opt, r: Result)
    ensures Matches(rules, selected, r)
            <==> r.version.Int? && r.envelope.Listed? && selected in Valid(rules, r.envelope.items, r.version)
  {
    hide Validate, Valid, AssetKeyOf;
    if r.envelope.Listed? {
      var items := r.envelope.items;
      ValidMembers(rules, items, r.version, selected);
      if r.version.Int? && selected in Valid(rules, items, r.version) {
        var i :| 0 <= i < |items| && items[i].Some? && Validate(rules, items[i].value, r.version) == Some(selected);
        AmountFits(rules, items[i].value, r.version);
        assert Agrees(rules, selected, selected);
      }
    }
  }

  lemma OptionsAreValid(rules: Rules, r: Result)
    requires r.envelope.Listed?
    ensures var valid := Valid(rules, r.envelope.items, r.version);
            Identities(Options(rules, r)) == Identities(valid) && forall o :: o in Options(rules, r) ==> o in valid
  {
    hide Valid, Dedupe, Identities;
    DedupeKeeps(Valid(rules, r.envelope.items, r.version));
  }

  /** Any option that a route can pick passes the gate exactly when the envelope has an integer
      version and a list of accepts; a catalog or made-up option never does. */
  lemma PickedPassesGateIff(rules: Rules, o: Opt, r: Result)
    requires o in Options(rules, r)
    ensures Matches(rules, o, r) <==> r.version.Int? && r.envelope.Listed?
  {
    hide Valid, Matches, Options, Identities;
    GateIff(rules, o, r);
    if r.envelope.Listed? { OptionsAreValid(rules, r); }
  }

  lemma IdentityOfMember(opts: seq<Opt>, o: Opt)
    ensures o in opts ==> IdentityOf(o) in Identities(opts)
    ensures IdentityOf(o) in Identities(opts) ==> exists p :: p in opts && IdentityOf(p) == IdentityOf(o)
  {
  }

  /** The gate is wider than the picker: it also passes the entries that deduplication dropped, but
      only those that share rail, network, asset and amount with an option that could be picked. */
  lemma GateAddsOnlyTwins(rules: Rules, selected: Opt, r: Result)
    requires Matches(rules, selected, r)
    ensures exists p :: p in Options(rules, r) && IdentityOf(p) == IdentityOf(selected)
  {
    hide Valid, Matches, Options, Identities;
    GateIff(rules, selected, r);
    OptionsAreValid(rules, r);
    IdentityOfMember(Valid(rules, r.envelope.items, r.version), selected);
    IdentityOfMember(Options(rules, r), selected);
  }

  // ---- a refused pick -----------------------------------------------------------------------

  /** A complete accept that brings its own version. */
  const LONE := Accept(Int(2), Some("exact"), None, Int(60), Some(Chain(Base)), Text("0"), Blank, Some("a"), Some("p"),
                       None, None)

  /** An envelope around it whose version is there but no literal integer, such as the text "2". */
  const TEXT_VERSIONED := Result(NotInt(true), Listed([Some(LONE)]), Undeclared, Undeclared, LONE)

  lemma ZeroIsCanonical()
    ensures Canonical("0") == Some(0)
  {
    assert Number("0"[..0]) == 0 && Number("0") == 0;
  }

  lemma LoneIsValid(rules: Rules)
    requires rules.validAsset("a", Base) && rules.validPay("p", Base)
    ensures Validate(rules, LONE, TEXT_VERSIONED.version) == Some(Fields(rules, LONE, Base, Chain(Base), "a", "p", 0))
  {
    hide Fields, Canonical;
    ZeroIsCanonical();
  }

  lemma OneOption(rules: Rules, a: Accept, version: Whole, o: Opt)
    requires Validate(rules, a, version) == Some(o)
    ensures Dedupe(Valid(rules, [Some(a)], version)) == [o]
  {
    hide Validate;
    var items := [Some(a)];
    assert items[..0] == [] && Valid(rules, items[..0], version) == [];
    assert [] + [o] == [o] && [o][..0] == [];
    assert Dedupe([o][..0]) == [];
  }

  /** The option can be picked, because its accept brings its own version and the envelope's coerces
      to one, and the gate refuses it, because the envelope's is no literal integer. */
  lemma TextVersionedPickIsRefused(rules: Rules)
    requires rules.validAsset("a", Base) && rules.validPay("p", Base)
    ensures var o := Fields(rules, LONE, Base, Chain(Base), "a", "p", 0);
            Options(rules, TEXT_VERSIONED) == [o] && !Matches(rules, o, TEXT_VERSIONED)
  {
    hide Fields, Validate, Valid, Dedupe;
    LoneIsValid(rules);
    OneOption(rules, LONE, NotInt(true), Fields(rules, LONE, Base, Chain(Base), "a", "p", 0));
  }
}
