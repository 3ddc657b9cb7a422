/** What every catalog operation does to the state of its source's sweep (live402/shadow.py and live402/catalog.py):
    which sweep it is, where it goes on, when it began and when one was last completed. */
module SweepStates {
  import opened Collections
  import opened CatalogStore
  import opened CatalogRuns
  import opened CatalogSweep
  import opened CatalogHistory

  /** A sweep begins with a fetch while none runs, and the first page ever counts for the first one. */
  predicate Begins(a: SourceState, act: Act) {
    act.DoBegin? || (act.DoTrickle? && a.started.None?)
  }

  function Places(n: int): int {
    if n > 0 then n else 0
  }

  /** Where the next page starts. */
  function NextPlace(a: SourceState, act: Act): int {
    match act
    case DoPage(_, items, offset, _, _, step, _) => Places(offset) + if step > 0 then step else |items|
    case DoTrickle(_, Page(items, pagination), _) =>
      var stored := if |items| < 100 then |items| else 100;
      var limited := pagination.Some? && pagination.value.limit.Some? && pagination.value.limit.value > 0;
      (if a.started.None? then 0 else a.cursor) + if limited then pagination.value.limit.value else stored
    case _ => if Begins(a, act) then 0 else a.cursor
  }

  /** The upstream's size as it was last reported. */
  function Reported(a: SourceState, act: Act): Option<nat> {
    match act
    case DoPage(_, _, _, _, Some(total), _, _) => Some(total)
    case DoTrickle(_, Page(_, Some(Pagination(_, _, Some(total)))), _) => Some(total)
    case _ => a.total
  }

  predicate Ingests(act: Act) {
    act.DoPage? || (act.DoTrickle? && act.fetched.Page?)
  }

  /** The state after an operation: a new sweep gets the next number, an ended one starts over and is dated, and any
      other operation only moves on. */
  ghost predicate Moves(a: SourceState, b: SourceState, act: Act, ends: bool) {
    && b.generation == (if Begins(a, act) then a.generation + 1
                        else if Ingests(act) && a.generation == 0 then 1 else a.generation)
    && b.cursor == (if ends then 0 else NextPlace(a, act))
    && b.total == Reported(a, act)
    && b.started == (if ends then None
                     else if Begins(a, act) then Some(act.ts)
                     else if Ingests(act) && a.generation == 0 && a.started.None? then Some(act.ts) else a.started)
    && b.completed == (if ends then Some(act.ts) else a.completed)
  }

  lemma FinishMoves(rules: Rules, db: Db, s: Source, ts: int)
    ensures StateOf(Finish(rules, db, s, ts), s)
            == StateOf(db, s).(completed := Some(ts), cursor := 0, started := None)
  {
    hide RetireUnseen;
  }

  lemma PageMoves(rules: Rules, db: Db, s: Source, items: seq<Listing>, offset: int, last: bool, total: Option<nat>,
                  step: int, ts: int)
    ensures var a := StateOf(db, s);
            var b := StateOf(IngestPage(rules, db, s, items, offset, last, total, step, ts), s);
            var ends := last || (total.Some? && Places(offset) + (if step > 0 then step else |items|) >= total.value);
            && b.generation == (if a.generation == 0 then 1 else a.generation)
            && b.cursor == (if ends then 0 else Places(offset) + if step > 0 then step else |items|)
            && b.total == (if total.Some? then total else a.total)
            && b.started == (if ends then None
                             else if a.generation == 0 && a.started.None? then Some(ts) else a.started)
            && b.completed == (if ends then Some(ts) else a.completed)
  {
    hide Finish, UpsertAll, SetState, Started, StateOf;
    var begun := Started(db, s, ts);
    var st := StateOf(begun, s);
    var stored := UpsertAll(rules, begun, items, s, Some(st.generation), ts);
    var cursor := Max(offset, 0) + if step < 1 then |items| else step;
    var moved := st.(cursor := cursor, total := if total.Some? then total else st.total);
    StartedMoves(db, s, ts);
    StateSet(stored, s, moved);
    FinishMoves(rules, SetState(stored, s, moved), s, ts);
  }

  lemma StartedMoves(db: Db, s: Source, ts: int)
    ensures var a, b := StateOf(db, s), StateOf(Started(db, s, ts), s);
            && b.generation == (if a.generation == 0 then 1 else a.generation)
            && b.cursor == a.cursor && b.total == a.total && b.completed == a.completed
            && b.started == (if a.generation == 0 && a.started.None? then Some(ts) else a.started)
  {
  }

  lemma StateSet(db: Db, s: Source, st: SourceState)
    ensures StateOf(SetState(db, s, st), s) == st
  {
  }

  lemma TrickleMoves(rules: Rules, db: Db, s: Source, items: seq<Listing>, pagination: Option<Pagination>, ts: int)
    ensures var act := DoTrickle(s, Page(items, pagination), ts);
            Moves(StateOf(db, s), StateOf(Trickle(rules, db, s, Page(items, pagination), ts), s), act,
                  EndsSweep(db, act))
  {
    hide IngestPage, FetchEnds, IsLast, FirstPage;
    var begun := if StateOf(db, s).started.None? then Begin(db, s, ts) else db;
    EndsIs(db, begun, s, items, pagination, ts);
    var slim := FirstPage(items);
    SlimIs(items);
    var step := StepOf(|slim|, pagination);
    var total := TotalOf(pagination);
    var offset := StateOf(begun, s).cursor;
    var last := IsLast(|items|, pagination) || (total.Some? && offset + Max(step, |slim|) >= total.value)
                || |slim| == 0;
    PageMoves(rules, begun, s, slim, offset, last, total, step, ts);
  }

  /** Every operation moves the state of its own source's sweep so, and no other operation touches it. */
  lemma SweepMoves(rules: Rules, db: Db, act: Act, s: Source)
    ensures var b := StateOf(Step(rules, db, act), s);
            if s == act.source then Moves(StateOf(db, s), b, act, EndsSweep(db, act)) else b == StateOf(db, s)
  {
    hide Finish, Trickle, IngestPage, Upsert, FetchEnds, Untouched, Reported, NextPlace;
    if s != act.source {
      OthersUntouched(rules, db, act, s);
      UntouchedState(db, Step(rules, db, act), s);
    } else {
      match act
      case DoUpsert(item, _, ts) => UpsertMoves(rules, db, act);
      case DoBegin(_, ts) => BeginMoves(rules, db, act);
      case DoComplete(_, ts) => CompleteMoves(rules, db, act);
      case DoPage(_, items, offset, last, total, step, ts) =>
        PageMoves(rules, db, s, items, offset, last, total, step, ts);
        PlacesOf(StateOf(db, s), act);
      case DoTrickle(_, fetched, ts) =>
        if fetched.Page? { TrickleMoves(rules, db, s, fetched.items, fetched.pagination, ts); }
        else { FailedMoves(rules, db, act); }
    }
  }

  lemma PlacesOf(a: SourceState, act: Act)
    requires act.DoPage?
    ensures NextPlace(a, act) == Places(act.offset) + if act.step > 0 then act.step else |act.items|
    ensures Reported(a, act) == if act.total.Some? then act.total else a.total
  {
  }

  lemma UpsertMoves(rules: Rules, db: Db, act: Act)
    requires act.DoUpsert?
    ensures Moves(StateOf(db, act.source), StateOf(Step(rules, db, act), act.source), act, false)
  {
  }

  lemma BeginMoves(rules: Rules, db: Db, act: Act)
    requires act.DoBegin?
    ensures Moves(StateOf(db, act.source), StateOf(Step(rules, db, act), act.source), act, false)
  {
  }

  lemma CompleteMoves(rules: Rules, db: Db, act: Act)
    requires act.DoComplete?
    ensures Moves(StateOf(db, act.source), StateOf(Step(rules, db, act), act.source), act, EndsSweep(db, act))
  {
    hide Finish;
    FinishMoves(rules, db, act.source, act.ts);
  }

  lemma FailedMoves(rules: Rules, db: Db, act: Act)
    requires act.DoTrickle? && act.fetched.Failed?
    ensures Moves(StateOf(db, act.source), StateOf(Step(rules, db, act), act.source), act, false)
  {
  }
}
