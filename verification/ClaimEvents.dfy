/** What the catalog logs when a source's claims about a listing are replaced (live402/shadow.py, _replace_claims),
    stated on the claims themselves: every change once, and nothing else. */
module ClaimEvents {
  import opened Collections
  import opened TextOrder
  import opened CatalogStore
  import opened CatalogRuns

  // ---- claims on a rail ---------------------------------------------------------------------

  /** The first claim on the rail. */
  ghost predicate FirstClaim(cs: seq<Claim>, rail: string, c: Claim) {
    rail != "" && exists i :: 0 <= i < |cs| && cs[i] == c && c.rail == Some(rail)
                              && forall k :: 0 <= k < i ==> cs[k].rail != Some(rail)
  }

  ghost predicate Claimed(cs: seq<Claim>, rail: string) {
    exists c :: FirstClaim(cs, rail, c)
  }

  lemma {:induction false} FirstOnIs(cs: seq<Claim>, rail: string, c: Claim)
    ensures FirstOn(cs, rail) == Some(c) <==> FirstClaim(cs, rail, c)
    decreases |cs|
  {
    if cs != [] {
      var rest := cs[1..];
      FirstOnIs(rest, rail, c);
      if FirstClaim(cs, rail, c) && !OnRail(cs[0], rail) {
        var i :| 0 <= i < |cs| && cs[i] == c && c.rail == Some(rail)
                 && forall k :: 0 <= k < i ==> cs[k].rail != Some(rail);
        assert rest[i - 1] == c && forall k :: 0 <= k < i - 1 ==> rest[k] == cs[k + 1];
      }
      if FirstClaim(rest, rail, c) && !OnRail(cs[0], rail) {
        var i :| 0 <= i < |rest| && rest[i] == c && c.rail == Some(rail)
                 && forall k :: 0 <= k < i ==> rest[k].rail != Some(rail);
        assert cs[i + 1] == c;
        forall k | 0 <= k < i + 1 ensures cs[k].rail != Some(rail) {
          if k > 0 { assert cs[k] == rest[k - 1]; }
        }
      }
    }
  }

  lemma {:induction false} FirstOnRails(cs: seq<Claim>, rail: string)
    ensures FirstOn(cs, rail).Some? <==> rail in Rails(cs)
    decreases |cs|
  {
    if cs != [] {
      FirstOnRails(cs[1..], rail);
      assert cs == [cs[0]] + cs[1..];
    }
  }

  lemma ClaimedIff(cs: seq<Claim>, rail: string)
    ensures Claimed(cs, rail) <==> rail in Rails(cs)
  {
    FirstOnRails(cs, rail);
    if FirstOn(cs, rail).Some? { FirstOnIs(cs, rail, FirstOn(cs, rail).value); }
    if c :| FirstClaim(cs, rail, c) { FirstOnIs(cs, rail, c); }
  }

  /** The first claims before and after differ in the amount, or in the payee as addresses on the rail compare. */
  ghost predicate Differs(rules: Rules, was: seq<Claim>, now: seq<Claim>, rail: string, price: bool) {
    exists a, b :: FirstClaim(was, rail, a) && FirstClaim(now, rail, b)
                   && if price then a.amount != b.amount
                      else a.payTo != b.payTo && !rules.samePay(a.payTo, b.payTo, rail)
  }

  lemma DiffersIff(rules: Rules, was: seq<Claim>, now: seq<Claim>, rail: string, price: bool)
    ensures Differs(rules, was, now, rail, price) <==> Changed(rules, was, now, rail, price)
  {
    hide FirstOn, FirstClaim;
    forall cs, c ensures FirstOn(cs, rail) == Some(c) <==> FirstClaim(cs, rail, c) { FirstOnIs(cs, rail, c); }
    if Changed(rules, was, now, rail, price) {
      assert FirstClaim(was, rail, FirstOn(was, rail).value) && FirstClaim(now, rail, FirstOn(now, rail).value);
    }
  }

  // ---- how often an event is logged ---------------------------------------------------------

  function Once(b: bool): nat {
    if b then 1 else 0
  }

  lemma {:induction false} SortedCount(ks: set<string>, k: string)
    ensures multiset(Sorted(ks))[k] == Once(k in ks)
    decreases |ks|
  {
    if ks != {} { SortedCount(ks - {Least(ks)}, k); }
  }

  function RailEvent(key: Key, rail: string, added: bool): Event {
    Event(key, if added then RailAdded(rail) else RailRemoved(rail))
  }

  lemma {:induction false} TaggedCount(key: Key, rails: seq<string>, added: bool, rail: string)
    ensures multiset(Tagged(key, rails, added))[RailEvent(key, rail, added)] == multiset(rails)[rail]
    ensures forall e :: e in Tagged(key, rails, added) ==> exists r :: e == RailEvent(key, r, added)
    decreases |rails|
  {
    if rails != [] {
      var n := |rails| - 1;
      TaggedCount(key, rails[..n], added, rail);
      assert rails == rails[..n] + [rails[n]];
      assert Tagged(key, rails, added) == Tagged(key, rails[..n], added) + [RailEvent(key, rails[n], added)];
    }
  }

  function ChangeEvent(key: Key, rail: string, price: bool): Event {
    Event(key, if price then PriceChanged(rail) else PayToChanged(rail))
  }

  lemma AtMostOnce(rules: Rules, key: Key, was: seq<Claim>, now: seq<Claim>, n: nat, e: Event)
    requires n < |now|
    ensures multiset(ChangesAt(rules, key, was, now, n))[e] == Once(e in ChangesAt(rules, key, was, now, n))
    ensures forall x :: x in ChangesAt(rules, key, was, now, n) ==> exists r, p :: x == ChangeEvent(key, r, p)
  {
    hide FirstOn;
    var rail := now[n].rail;
    if rail.Some? {
      assert Event(key, PriceChanged(rail.value)) == ChangeEvent(key, rail.value, true);
      assert Event(key, PayToChanged(rail.value)) == ChangeEvent(key, rail.value, false);
    }
  }

  lemma {:induction false} ChangesCount(rules: Rules, key: Key, was: seq<Claim>, now: seq<Claim>, n: nat, rail: string,
                                        price: bool)
    requires n <= |now|
    ensures multiset(Changes(rules, key, was, now, n))[ChangeEvent(key, rail, price)]
            == Once(Changed(rules, was, now[..n], rail, price))
    ensures forall x :: x in Changes(rules, key, was, now, n) ==> exists r, p :: x == ChangeEvent(key, r, p)
    decreases n
  {
    hide ChangesAt, FirstOn;
    if n == 0 {
      NoClaims(was, rail);
      assert now[..0] == [];
    } else {
      var e := ChangeEvent(key, rail, price);
      ChangesCount(rules, key, was, now, n - 1, rail, price);
      ChangeStep(rules, key, was, now, n - 1, e, rail, price);
      AtMostOnce(rules, key, was, now, n - 1, e);
      FirstOnMore(now[..n - 1], now[n - 1], rail);
      assert now[..n] == now[..n - 1] + [now[n - 1]];
    }
  }

  // ---- replacing claims ---------------------------------------------------------------------

  /** The events that replacing claims logs, of every kind exactly those that happened, each once. */
  ghost predicate TellsChanges(rules: Rules, more: seq<Event>, key: Key, was: seq<Claim>, now: seq<Claim>) {
    && (forall rail :: multiset(more)[RailEvent(key, rail, true)] == Once(Claimed(now, rail) && !Claimed(was, rail)))
    && (forall rail :: multiset(more)[RailEvent(key, rail, false)] == Once(Claimed(was, rail) && !Claimed(now, rail)))
    && (forall rail, price :: multiset(more)[ChangeEvent(key, rail, price)]
                              == Once(Differs(rules, was, now, rail, price)))
    && forall e :: e in more ==> exists rail, b :: e == RailEvent(key, rail, b) || e == ChangeEvent(key, rail, b)
  }

  /** Replacing the claims stores the new ones for this listing and source alone, and appends an event for each rail
      that came, each that went, and each whose first claim changed its amount or its payee: each once, no others. */
  lemma ReplacedClaims(rules: Rules, db: Db, key: Key, now: seq<Claim>) returns (more: seq<Event>)
    ensures ReplaceClaims(rules, db, key, now)
            == db.(claims := db.claims[key := now], events := db.events + more)
    ensures TellsChanges(rules, more, key, if key in db.claims then db.claims[key] else [], now)
  {
    hide Sorted, Changes, Tagged, Rails, Claimed, Differs, Changed;
    var was := ClaimsOf(db, key);
    var came, went := Sorted(Rails(now) - Rails(was)), Sorted(Rails(was) - Rails(now));
    var a, b, c := Tagged(key, came, true), Tagged(key, went, false), Changes(rules, key, was, now, |now|);
    more := a + b + c;
    assert db.events + a + b + c == db.events + more;
    KindsApart(rules, key, was, now, a, b, c, came, went);
    forall rail
      ensures multiset(more)[RailEvent(key, rail, true)] == Once(Claimed(now, rail) && !Claimed(was, rail))
      ensures multiset(more)[RailEvent(key, rail, false)] == Once(Claimed(was, rail) && !Claimed(now, rail))
    {
      PartOf(a, b, c, RailEvent(key, rail, true));
      PartOf(a, b, c, RailEvent(key, rail, false));
      RailCount(key, was, now, rail);
    }
    forall rail, price
      ensures multiset(more)[ChangeEvent(key, rail, price)] == Once(Differs(rules, was, now, rail, price))
    {
      PartOf(a, b, c, ChangeEvent(key, rail, price));
      ChangesCount(rules, key, was, now, |now|, rail, price);
      assert now[..|now|] == now;
      DiffersIff(rules, was, now, rail, price);
    }
    hide RailEvent, ChangeEvent;
    assert forall e :: e in more ==> e in a || e in b || e in c;
  }

  lemma PartOf(a: seq<Event>, b: seq<Event>, c: seq<Event>, e: Event)
    ensures multiset(a + b + c)[e] == multiset(a)[e] + multiset(b)[e] + multiset(c)[e]
  {
  }

  lemma RailCount(key: Key, was: seq<Claim>, now: seq<Claim>, rail: string)
    ensures multiset(Tagged(key, Sorted(Rails(now) - Rails(was)), true))[RailEvent(key, rail, true)]
            == Once(Claimed(now, rail) && !Claimed(was, rail))
    ensures multiset(Tagged(key, Sorted(Rails(was) - Rails(now)), false))[RailEvent(key, rail, false)]
            == Once(Claimed(was, rail) && !Claimed(now, rail))
  {
    hide Sorted, Tagged, Rails, Claimed, RailEvent;
    TaggedCount(key, Sorted(Rails(now) - Rails(was)), true, rail);
    TaggedCount(key, Sorted(Rails(was) - Rails(now)), false, rail);
    SortedCount(Rails(now) - Rails(was), rail);
    SortedCount(Rails(was) - Rails(now), rail);
    ClaimedIff(was, rail);
    ClaimedIff(now, rail);
  }

  lemma KindsApart(rules: Rules, key: Key, was: seq<Claim>, now: seq<Claim>, a: seq<Event>, b: seq<Event>,
                   c: seq<Event>, came: seq<string>, went: seq<string>)
    requires a == Tagged(key, came, true) && b == Tagged(key, went, false)
    requires c == Changes(rules, key, was, now, |now|)
    ensures forall e :: e in a ==> exists r :: e == RailEvent(key, r, true)
    ensures forall e :: e in b ==> exists r :: e == RailEvent(key, r, false)
    ensures forall e :: e in c ==> exists r, p :: e == ChangeEvent(key, r, p)
    ensures forall r :: RailEvent(key, r, true) !in b && RailEvent(key, r, true) !in c
    ensures forall r :: RailEvent(key, r, false) !in a && RailEvent(key, r, false) !in c
    ensures forall r, p :: ChangeEvent(key, r, p) !in a && ChangeEvent(key, r, p) !in b
  {
    TaggedCount(key, came, true, "");
    TaggedCount(key, went, false, "");
    ChangesCount(rules, key, was, now, |now|, "", true);
  }
}
