/** The replay guard of one process and the durable ledger it shares (live402/replay.py). */
module Replay {
  import opened Collections
  import opened Outcomes

  type Fingerprint = string
  type Hash = string
  type Scope = Option<string>

  const VERSION := 2
  const MAX_COMPLETED := 2048
  const TTL := 120.0

  // ---- the durable ledger ------------------------------------------------------------------

  datatype Row = Row(state: LedgerState, outcome: Option<string>, version: int, scope: Scope)

  /** settle_ledger, keyed by its UNIQUE column. */
  type Ledger = map<Hash, Row>

  /** How one write ended: committed, reported lost but applied, or not applied. */
  datatype Write = Committed | LostApplied | LostDropped

  /** What sqlite does during one begin(). */
  datatype Io = Io(read: bool, legacyRead: bool, cutover: bool, write: Write)

  datatype Lookup = Missing | Found(outcome: Outcome) | Barred

  /** The outcome a row replays, whatever the scope. */
  function Readable(codec: Codec, row: Row): Option<Outcome> {
    if row.outcome.None? || row.outcome.value == "" then None
    else
      var decoded := Decode(codec, row.outcome.value);
      if row.state.Unknown? then
        if decoded.Some? && ExplicitState(decoded.value) == Some(Unknown) then decoded else None
      else if Terminal(row.state) then decoded
      else None
  }

  /** _ledger_lookup */
  function LookupRow(codec: Codec, ledger: Ledger, h: Hash, scope: Scope, enforce: bool, read: bool): Lookup {
    if !read then Barred
    else if h !in ledger then Missing
    else
      var row := ledger[h];
      var version := if row.version == 0 then 1 else row.version;
      if enforce && version >= VERSION && row.scope != scope then Barred
      else
        match Readable(codec, row)
        case Some(o) => Found(o)
        case None => Barred
  }

  /** _ledger_reserve: the UNIQUE insert. The flag says whether the caller may run. */
  function Reserve(ledger: Ledger, h: Hash, scope: Scope, io: Io): (Ledger, bool) {
    if !io.cutover || h in ledger || io.write.LostDropped? then (ledger, false)
    else (ledger[h := Row(Pending, None, VERSION, scope)], io.write.Committed?)
  }

  /** _ledger_finish */
  function FinishRow(codec: Codec, ledger: Ledger, h: Hash, safe: Outcome, cache: bool, write: Write): Ledger {
    if write.LostDropped? || h !in ledger then ledger
    else if cache then ledger[h := ledger[h].(state := StateOf(safe), outcome := Some(Encode(codec, safe)))]
    else ledger - {h}
  }

  /** _ledger_mark_unknown */
  function MarkUnknown(ledger: Ledger, h: Hash, write: Write): Ledger {
    if write.LostDropped? || h !in ledger || !NonTerminal(ledger[h].state) then ledger
    else ledger[h := ledger[h].(state := Unknown)]
  }

  // ---- the maps of one process -------------------------------------------------------------

  datatype Slot<E> = Slot(entry: E, scope: Scope)
  datatype Kept = Kept(expires: real, scope: Scope, outcome: Outcome)
  datatype Ram<E> = Ram(inflight: map<Fingerprint, Slot<E>>, completed: Odict<Fingerprint, Kept>)

  function Unexpired(c: Odict<Fingerprint, Kept>, now: real): (r: Odict<Fingerprint, Kept>)
    ensures forall x :: x in r ==> x in c && x.value.expires > now
    ensures forall x :: x in c && x.value.expires > now ==> x in r
  {
    if c == [] then []
    else
      var rest := Unexpired(c[1..], now);
      assert forall i :: 1 <= i < |c| ==> c[i] == c[1..][i - 1];
      if c[0].value.expires > now then [c[0]] + rest else rest
  }

  /** _prune_completed: expired entries go, then the oldest beyond the cap. */
  function Pruned(c: Odict<Fingerprint, Kept>, now: real): (r: Odict<Fingerprint, Kept>)
    ensures |r| <= MAX_COMPLETED
    ensures forall x :: x in r ==> x in c && x.value.expires > now
  {
    var live := Unexpired(c, now);
    if |live| > MAX_COMPLETED then live[|live| - MAX_COMPLETED..] else live
  }

  datatype Source = FromRam | FromLedger | FromLegacy

  datatype Verdict<E> = Replayed(source: Source, outcome: Outcome) | Wait(entry: E) | Refuse | Proceed

  /** begin() up to the reservation, on pruned maps. */
  function Check<E>(codec: Codec, hash: Fingerprint -> Hash, ram: Ram<E>, ledger: Ledger, io: Io,
                    fp: Fingerprint, legacy: Option<Fingerprint>, scope: Scope, now: real): Verdict<E>
  {
    var cached := Get(ram.completed, fp);
    if cached.Some? && cached.value.expires > now then
      if cached.value.scope != scope then Refuse else Replayed(FromRam, cached.value.outcome)
    else if fp in ram.inflight then
      if ram.inflight[fp].scope != scope then Refuse else Wait(ram.inflight[fp].entry)
    else
      match LookupRow(codec, ledger, hash(fp), scope, true, io.read)
      case Found(o) => Replayed(FromLedger, o)
      case Barred => Refuse
      case Missing =>
        if legacy.Some? && legacy.value != "" && legacy.value != fp then
          match LookupRow(codec, ledger, hash(legacy.value), None, false, io.legacyRead)
          case Found(o) => Replayed(FromLegacy, o)
          case Barred => Refuse
          case Missing => Proceed
        else Proceed
  }

  /** finish() on the maps; `safe` is the sanitized outcome. */
  function FinishRam<E>(ram: Ram<E>, fp: Fingerprint, safe: Outcome, cache: bool, now: real): Ram<E> {
    var scope := if fp in ram.inflight then ram.inflight[fp].scope else None;
    var completed :=
      if cache then Pruned(Put(Pruned(ram.completed, now), fp, Kept(now + TTL, scope, safe)), now) else ram.completed;
    Ram(ram.inflight - {fp}, completed)
  }

  // ---- the guard as an object --------------------------------------------------------------

  /** What the waiters of one authorization share. */
  class Entry {
    const scope: Scope
    var done: bool
    var result: Option<Outcome>

    constructor (scope: Scope)
      ensures this.scope == scope && !done && result == None
    {
      this.scope, done, result := scope, false, None;
    }
  }

  class LedgerStore {
    var rows: Ledger

    constructor ()
      ensures rows == map[]
    {
      rows := map[];
    }
  }

  datatype Begun = Run(entry: Entry) | Cached(outcome: Outcome) | Waiting(entry: Entry) | Denied

  class ReplayGuard {
    const codec: Codec
    const hash: Fingerprint -> Hash
    const store: LedgerStore
    var inflight: map<Fingerprint, Entry>
    var completed: Odict<Fingerprint, Kept>

    constructor (codec: Codec, hash: Fingerprint -> Hash, store: LedgerStore)
      ensures this.codec == codec && this.hash == hash && this.store == store
      ensures View() == Ram(map[], [])
    {
      this.codec, this.hash, this.store := codec, hash, store;
      inflight, completed := map[], [];
    }

    ghost function View(): Ram<Entry>
      reads this
    {
      Ram(map f | f in inflight :: Slot(inflight[f], inflight[f].scope), completed)
    }

    method DropExpired(now: real)
      modifies this`completed
      ensures completed == Unexpired(old(completed), now)
    {
      var kept: Odict<Fingerprint, Kept> := [];
      var i := |completed|;
      while i > 0
        invariant 0 <= i <= |completed| && completed == old(completed)
        invariant kept == Unexpired(completed[i..], now)
      {
        i := i - 1;
        assert completed[i..][0] == completed[i] && completed[i..][1..] == completed[i + 1..];
        if completed[i].value.expires > now {
          kept := [completed[i]] + kept;
        }
      }
      assert completed[0..] == completed;
      completed := kept;
    }

    method DropOldest()
      modifies this`completed
      ensures var c := old(completed);
              completed == if |c| > MAX_COMPLETED then c[|c| - MAX_COMPLETED..] else c
    {
      ghost var all := completed;
      while |completed| > MAX_COMPLETED
        invariant |completed| <= |all| && completed == all[|all| - |completed|..]
        invariant |completed| >= MAX_COMPLETED || completed == all
      {
        completed := completed[1..];
      }
    }

    method PruneCompleted(now: real)
      modifies this`completed
      ensures completed == Pruned(old(completed), now)
    {
      hide Unexpired;
      DropExpired(now);
      DropOldest();
    }

    /** The reservation of begin() and the new entry. */
    method ReserveEntry(fp: Fingerprint, scope: Scope, io: Io) returns (b: Begun)
      modifies this`inflight, store
      ensures var ram := old(View());
              var (rows, run) := Reserve(old(store.rows), hash(fp), scope, io);
              && store.rows == rows
              && (!run ==> b == Denied && View() == ram)
              && (run ==> b.Run? && fresh(b.entry) && !b.entry.done && b.entry.result == None
                          && View() == ram.(inflight := ram.inflight[fp := Slot(b.entry, scope)]))
    {
      hide Reserve;
      var (rows, run) := Reserve(store.rows, hash(fp), scope, io);
      store.rows := rows;
      if !run { return Denied; }
      var entry := new Entry(scope);
      inflight := inflight[fp := entry];
      return Run(entry);
    }

    /** begin(): replay, wait, refuse, or take the one reservation. */
    method Begin(fp: Fingerprint, legacy: Option<Fingerprint>, scope: Scope, now: real, io: Io) returns (b: Begun)
      modifies this, store
      ensures completed == Pruned(old(completed), now)
      ensures var ram := Ram(old(View()).inflight, completed);
              var verdict := Check(codec, hash, ram, old(store.rows), io, fp, legacy, scope, now);
              var (rows, run) := Reserve(old(store.rows), hash(fp), scope, io);
              match verdict
              case Replayed(_, o) => b == Cached(o) && View() == ram && store.rows == old(store.rows)
              case Wait(e) => b == Waiting(e) && View() == ram && store.rows == old(store.rows)
              case Refuse => b == Denied && View() == ram && store.rows == old(store.rows)
              case Proceed =>
                && store.rows == rows
                && (!run ==> b == Denied && View() == ram)
                && (run ==> b.Run? && fresh(b.entry) && !b.entry.done && b.entry.result == None
                            && View() == ram.(inflight := ram.inflight[fp := Slot(b.entry, scope)]))
    {
      hide Pruned, Get, LookupRow, Reserve;
      PruneCompleted(now);
      var cached := Get(completed, fp);
      if cached.Some? && cached.value.expires > now {
        if cached.value.scope != scope { return Denied; }
        return Cached(cached.value.outcome);
      }
      if fp in inflight {
        if inflight[fp].scope != scope { return Denied; }
        return Waiting(inflight[fp]);
      }
      var found := LookupRow(codec, store.rows, hash(fp), scope, true, io.read);
      if found.Found? { return Cached(found.outcome); }
      if found.Barred? { return Denied; }
      if legacy.Some? && legacy.value != "" && legacy.value != fp {
        var before := LookupRow(codec, store.rows, hash(legacy.value), None, false, io.legacyRead);
        if before.Found? { return Cached(before.outcome); }
        if before.Barred? { return Denied; }
      }
      b := ReserveEntry(fp, scope, io);
    }

    /** finish(): publish to the waiters, keep in RAM, persist or drop the reservation. */
    method Finish(fp: Fingerprint, result: Outcome, cache: bool, now: real, write: Write)
      modifies this, store, if fp in inflight then {inflight[fp]} else {}
      ensures View() == FinishRam(old(View()), fp, Sanitize(codec, result), cache, now)
      ensures store.rows == FinishRow(codec, old(store.rows), hash(fp), Sanitize(codec, result), cache, write)
      ensures fp in old(inflight) ==>
                old(inflight)[fp].done && old(inflight)[fp].result == Some(Sanitize(codec, result))
    {
      hide Sanitize, Pruned, FinishRow;
      var safe := Sanitize(codec, result);
      var scope: Scope := None;
      if fp in inflight {
        var entry := inflight[fp];
        scope := entry.scope;
        entry.result := Some(safe);
        entry.done := true;
        inflight := inflight - {fp};
      }
      assert View().inflight == old(View()).inflight - {fp};
      if cache {
        PruneCompleted(now);
        completed := Put(completed, fp, Kept(now + TTL, scope, safe));
        PruneCompleted(now);
      }
      store.rows := FinishRow(codec, store.rows, hash(fp), safe, cache, write);
    }

    /** abandon(): the waiters wake without a result and the row stays. */
    method Abandon(fp: Fingerprint, write: Write)
      modifies this`inflight, store, (if fp in inflight then {inflight[fp]} else {})`done
      ensures View() == old(View()).(inflight := old(View()).inflight - {fp})
      ensures store.rows == MarkUnknown(old(store.rows), hash(fp), write)
      ensures fp in old(inflight) ==> old(inflight)[fp].done
    {
      if fp in inflight {
        inflight[fp].done := true;
        inflight := inflight - {fp};
      }
      store.rows := MarkUnknown(store.rows, hash(fp), write);
    }
  }
}
