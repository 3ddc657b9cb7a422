/** What a validated payment option is, field by field, and which of equal ones stays
    (live402/payment.py, validate_observed_accept and _dedupe_options). */
module EnvelopeRules {
  import opened Amounts
  import opened Collections
  import opened Rails
  import opened EnvelopeGate

  /** The version that counts for an accept: its own or, when it has none, the envelope's; an envelope's
      version that is there must be supported too. */
  predicate VersionIs(a: Accept, envelope: Whole, v: int) {
    && (v == 1 || v == 2)
    && (a.version == Int(v) || (a.version == Missing && envelope == Int(v)))
    && (envelope == Missing || envelope == Int(1) || envelope == Int(2) || envelope == NotInt(true))
  }

  /** Chain ids name their rail in both versions, aliases in the first one only. */
  predicate OnRail(a: Accept, v: int, rail: Rail) {
    a.network == Some(Chain(rail)) || (v == 1 && a.network == Some(Alias(rail)))
  }

  /** The amount is that under the version's name, and the other name is not there, blank or agrees. */
  predicate AmountIs(a: Accept, v: int, n: nat) {
    var named, other := if v == 2 then a.amount else a.maxAmount, if v == 2 then a.maxAmount else a.amount;
    && named.Text? && Canonical(named.s) == Some(n)
    && (other == Blank || (other.Text? && (other.s == "" || Canonical(other.s) == Some(n))))
  }

  /** The option says what the accept says. */
  predicate Reads(rules: EnvelopeGate.Rules, a: Accept, o: Opt, n: nat) {
    && a.network == Some(o.network) && a.asset == Some(o.asset) && a.payTo == Some(o.payTo) && o.atomic == n
    && o.facilitator == a.facilitator && o.cost == rules.cost(a) && o.settle == rules.settle(o.rail)
    && o.usdc == rules.isUsdc(o.asset)
    && o.key == (if o.usdc then KnownUsdc(o.rail)
                 else if o.rail == Base then Asset(Base, rules.lower(o.asset))
                 else if o.rail == Algorand then Asset(Algorand, rules.upper(o.asset)) else Asset(Solana, o.asset))
    && o.display == Some(if o.usdc then rules.dollars(n)
                         else if a.display.Some? then a.display.value else rules.shown(n, o.asset))
  }

  /** Exactly these accepts are validated, and to exactly this option. */
  lemma ValidatedIff(rules: EnvelopeGate.Rules, a: Accept, envelope: Whole, o: Opt)
    ensures Validate(rules, a, envelope) == Some(o) <==>
              exists v, n ::
                && VersionIs(a, envelope, v) && OnRail(a, v, o.rail) && AmountIs(a, v, n) && Reads(rules, a, o, n)
                && a.scheme == Some("exact") && (a.extraScheme.None? || a.extraScheme == Some("exact"))
                && a.timeout.Int? && 1 <= a.timeout.n <= 86400
                && rules.validAsset(o.asset, o.rail) && rules.validPay(o.payTo, o.rail)
  {
    hide Canonical;
    if Validate(rules, a, envelope) == Some(o) {
      var v := if a.version == Missing then envelope.n else a.version.n;
      assert VersionIs(a, envelope, v) && AmountIs(a, v, o.atomic) && Reads(rules, a, o, o.atomic);
    }
  }

  /** Rail, network, asset and amount are the same. */
  predicate Twins(o: Opt, p: Opt) {
    o.rail == p.rail && o.network == p.network && o.asset == p.asset && o.atomic == p.atomic
  }

  /** Deduplication goes through the list in order and keeps an option exactly if no twin stands before it. */
  lemma DedupeLast(opts: seq<Opt>, o: Opt)
    ensures Dedupe(opts + [o]) == Dedupe(opts) + if exists p :: p in opts && Twins(p, o) then [] else [o]
  {
    hide Identities;
    assert (opts + [o])[..|opts|] == opts;
    DedupeKeeps(opts);
    assert IdentityOf(o) in Identities(opts) <==> exists p :: p in opts && Twins(p, o) by {
      IdentityOfMember(opts, o);
      forall p | p in opts ensures IdentityOf(p) in Identities(opts) { IdentityOfMember(opts, p); }
      assert forall p :: IdentityOf(p) == IdentityOf(o) <==> Twins(p, o);
    }
  }

  /** The validated entries in their order: one more entry adds its option, if it has one. */
  lemma ValidLast(rules: EnvelopeGate.Rules, items: seq<Option<Accept>>, item: Option<Accept>, version: Whole)
    ensures Valid(rules, items + [item], version) ==
            Valid(rules, items, version)
            + (if item.Some? && Validate(rules, item.value, version).Some?
               then [Validate(rules, item.value, version).value] else [])
  {
    hide Validate;
    assert (items + [item])[..|items|] == items;
  }

  /** Where the observed options come from: the first declared list of envelope, target and result, whatever is in
      it; a declaration that is no list gives none; and the other fields count only when nothing is declared. */
  lemma OptionsComeFrom(rules: EnvelopeGate.Rules, r: Result)
    ensures r.envelope.Listed? ==> Options(rules, r) == Dedupe(Valid(rules, r.envelope.items, r.version))
    ensures r.envelope.NoList? ==> Options(rules, r) == []
    ensures r.envelope.Undeclared? && r.target.Listed? ==>
              Options(rules, r) == Dedupe(Valid(rules, r.target.items, r.version))
    ensures r.envelope.Undeclared? && r.target.NoList? ==> Options(rules, r) == []
    ensures r.envelope.Undeclared? && r.target.Undeclared? && r.own.Listed? ==>
              Options(rules, r) == Dedupe(Valid(rules, r.own.items, r.version))
    ensures r.envelope.Undeclared? && r.target.Undeclared? && r.own.NoList? ==> Options(rules, r) == []
    ensures r.envelope.Undeclared? && r.target.Undeclared? && r.own.Undeclared? ==>
              forall o :: o in Options(rules, r) <==> Validate(rules, r.legacy, r.version) == Some(o)
  {
    hide Validate, Dedupe, Valid;
  }
}
