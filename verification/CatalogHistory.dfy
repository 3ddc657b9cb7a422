/** What the catalog's rows of sightings and its retirements say about the operations that were run
    (live402/shadow.py): when a source last saw a listing, whether it ever served it in a page, and
    which listings the end of another source's sweep retires. */
module CatalogHistory {
  import opened Collections
  import opened TextOrder
  import opened CatalogStore
  import opened CatalogRuns
  import opened CatalogSweep

  // ---- read off the operations --------------------------------------------------------------

  /** The operation stores the listing from a page of the source; of a fetched page only the first 100 count. */
  predicate PageHas(act: Act, source: Source, url: string) {
    url != "" &&
    match act
    case DoPage(s, items, _, _, _, _, _) => s == source && exists i :: 0 <= i < |items| && items[i].url == url
    case DoTrickle(s, fetched, _) =>
      s == source && fetched.Page?
      && exists i :: 0 <= i < |fetched.items| && i < 100 && fetched.items[i].url == url
    case _ => false
  }

  /** The operation upserts the listing for the source outside of any sweep. */
  predicate UpsertHas(act: Act, source: Source, url: string) {
    act.DoUpsert? && act.source == source && act.item.url == url && url != ""
  }

  /** When the source last saw the listing. */
  function LastSeen(acts: seq<Act>, source: Source, url: string): Option<int>
    decreases |acts|
  {
    if acts == [] then None
    else
      var act := acts[|acts| - 1];
      if PageHas(act, source, url) || UpsertHas(act, source, url) then Some(act.ts)
      else LastSeen(acts[..|acts| - 1], source, url)
  }

  /** The source has served the listing in a page. */
  predicate Served(acts: seq<Act>, source: Source, url: string) {
    exists i :: 0 <= i < |acts| && PageHas(acts[i], source, url)
  }

  // ---- one operation ------------------------------------------------------------------------

  lemma {:induction false} UpsertAllTimes(rules: Rules, db: Db, items: seq<Listing>, source: Source,
                                          generation: Option<nat>, ts: int, url: string)
    requires url in Urls(items)
    ensures var b := UpsertAll(rules, db, items, source, generation, ts);
            Key(url, source) in b.seen && b.seen[Key(url, source)].lastSeen == ts
    decreases |items|
  {
    hide Upsert, Urls;
    NotEmpty(items, url);
    var older, x := items[..|items| - 1], items[|items| - 1];
    var mid := UpsertAll(rules, db, older, source, generation, ts);
    UrlsConcat(older, [x]);
    UrlsOne(x);
    assert items == older + [x];
    if x.url != "" { UpsertTables(rules, mid, x, source, generation, ts); }
    if url != x.url {
      UpsertAllTimes(rules, db, older, source, generation, ts, url);
      if x.url == "" { UpsertNothing(rules, mid, x, source, generation, ts); }
    }
  }

  lemma UpsertNothing(rules: Rules, db: Db, item: Listing, source: Source, generation: Option<nat>, ts: int)
    requires item.url == ""
    ensures Upsert(rules, db, item, source, generation, ts) == db
  {
  }

  lemma UrlIsIn(items: seq<Listing>, url: string)
    ensures url in Urls(items) <==> url != "" && exists i :: 0 <= i < |items| && items[i].url == url
  {
    if url in Urls(items) { NotEmpty(items, url); }
  }

  /** What one operation does to the row of a listing and a source: a page sets its time and stamps it, an upsert
      sets its time and leaves the stamp, and everything else leaves it. */
  ghost predicate Sees(a: Db, b: Db, act: Act, source: Source, url: string) {
    var key := Key(url, source);
    if PageHas(act, source, url) then
      key in b.seen && b.seen[key].lastSeen == act.ts && b.seen[key].generation.Some?
    else if UpsertHas(act, source, url) then
      key in b.seen && b.seen[key].lastSeen == act.ts
      && b.seen[key].generation == (if key in a.seen then a.seen[key].generation else None)
    else (key in b.seen <==> key in a.seen) && (key in a.seen ==> b.seen[key] == a.seen[key])
  }

  lemma FinishSees(rules: Rules, db: Db, source: Source, ts: int)
    ensures Finish(rules, db, source, ts).seen == db.seen
  {
    hide Finish, Candidates, Exempt;
    FinishDoes(rules, db, source, ts);
  }

  lemma StoredSees(rules: Rules, db: Db, s: Source, items: seq<Listing>, generation: nat, ts: int, source: Source,
                   url: string)
    ensures var b := UpsertAll(rules, db, items, s, Some(generation), ts);
            var key := Key(url, source);
            if s == source && url in Urls(items) then
              key in b.seen && b.seen[key].lastSeen == ts && b.seen[key].generation == Some(generation)
            else (key in b.seen <==> key in db.seen) && (key in db.seen ==> b.seen[key] == db.seen[key])
  {
    hide UpsertAll, Urls;
    UpsertAllDoes(rules, db, items, s, Some(generation), ts);
    if s == source && url in Urls(items) { UpsertAllTimes(rules, db, items, s, Some(generation), ts, url); }
  }

  lemma PageSees(rules: Rules, db: Db, s: Source, items: seq<Listing>, offset: int, last: bool, total: Option<nat>,
                 step: int, ts: int, source: Source, url: string)
    ensures var b := IngestPage(rules, db, s, items, offset, last, total, step, ts);
            var key := Key(url, source);
            if s == source && url in Urls(items) then
              key in b.seen && b.seen[key].lastSeen == ts && b.seen[key].generation.Some?
            else (key in b.seen <==> key in db.seen) && (key in db.seen ==> b.seen[key] == db.seen[key])
  {
    hide UpsertAll, Finish, Urls;
    var begun := Started(db, s, ts);
    var st := StateOf(begun, s);
    var stored := UpsertAll(rules, begun, items, s, Some(st.generation), ts);
    StoredSees(rules, begun, s, items, st.generation, ts, source, url);
    var cursor := Max(offset, 0) + if step < 1 then |items| else step;
    var moved := SetState(stored, s, st.(cursor := cursor, total := if total.Some? then total else st.total));
    FinishSees(rules, moved, s, ts);
  }

  lemma FirstHundred(items: seq<Listing>, url: string)
    ensures url in Urls(FirstPage(items)) <==>
              url != "" && exists i :: 0 <= i < |items| && i < 100 && items[i].url == url
  {
    hide Urls;
    var page := FirstPage(items);
    UrlIsIn(page, url);
    assert forall i :: 0 <= i < |page| ==> page[i] == items[i];
    if i :| 0 <= i < |items| && i < 100 && items[i].url == url { assert page[i].url == url; }
  }

  lemma StepSees(rules: Rules, db: Db, act: Act, source: Source, url: string)
    ensures Sees(db, Step(rules, db, act), act, source, url)
  {
    hide Upsert, Finish, IngestPage, IsLast, Urls, UpsertAll, FirstPage;
    match act
    case DoUpsert(item, s, ts) =>
      if item.url == "" { UpsertNothing(rules, db, item, s, None, ts); }
      else { UpsertTables(rules, db, item, s, None, ts); }
    case DoBegin(s, ts) =>
    case DoComplete(s, ts) => FinishSees(rules, db, s, ts);
    case DoPage(s, items, offset, last, total, step, ts) =>
      PageSees(rules, db, s, items, offset, last, total, step, ts, source, url);
      UrlIsIn(items, url);
    case DoTrickle(s, fetched, ts) =>
      if fetched.Page? {
        FirstHundred(fetched.items, url);
        TrickleSees(rules, db, s, fetched, ts, source, url);
      }
  }

  lemma TrickleSees(rules: Rules, db: Db, s: Source, fetched: Fetch, ts: int, source: Source, url: string)
    requires fetched.Page?
    ensures var b := Trickle(rules, db, s, fetched, ts);
            var key := Key(url, source);
            if s == source && url in Urls(FirstPage(fetched.items)) then
              key in b.seen && b.seen[key].lastSeen == ts && b.seen[key].generation.Some?
            else (key in b.seen <==> key in db.seen) && (key in db.seen ==> b.seen[key] == db.seen[key])
  {
    hide IngestPage, IsLast, Urls, FirstPage;
    var begun := if StateOf(db, s).started.None? then Begin(db, s, ts) else db;
    var offset := StateOf(begun, s).cursor;
    var slim := FirstPage(fetched.items);
    var step := StepOf(|slim|, fetched.pagination);
    var total := TotalOf(fetched.pagination);
    var last := IsLast(|fetched.items|, fetched.pagination)
                || (total.Some? && offset + Max(step, |slim|) >= total.value) || |slim| == 0;
    PageSees(rules, begun, s, slim, offset, last, total, step, ts, source, url);
  }

  // ---- whole runs ---------------------------------------------------------------------------

  /** In every reachable state the row of a listing and a source is there exactly if an operation stored it, holds
      the time of the last one, and is stamped exactly if the source has served the listing in a page. */
  lemma {:induction false} SightingsFollowTheRun(rules: Rules, acts: seq<Act>, source: Source, url: string)
    ensures var seen, key := Run(rules, EMPTY, acts).seen, Key(url, source);
            && (key in seen <==> LastSeen(acts, source, url).Some?)
            && (key in seen ==> LastSeen(acts, source, url) == Some(seen[key].lastSeen)
                                && (seen[key].generation.Some? <==> Served(acts, source, url)))
            && (Served(acts, source, url) ==> key in seen)
    decreases |acts|
  {
    hide PageHas, UpsertHas, Step;
    if acts != [] {
      var n := |acts| - 1;
      SightingsFollowTheRun(rules, acts[..n], source, url);
      StepSees(rules, Run(rules, EMPTY, acts[..n]), acts[n], source, url);
      ServedMore(acts, source, url);
    }
  }

  lemma ServedMore(acts: seq<Act>, source: Source, url: string)
    requires acts != []
    ensures Served(acts, source, url) <==>
              Served(acts[..|acts| - 1], source, url) || PageHas(acts[|acts| - 1], source, url)
  {
    hide PageHas;
    var n := |acts| - 1;
    if Served(acts[..n], source, url) {
      var i :| 0 <= i < n && PageHas(acts[..n][i], source, url);
      assert acts[i] == acts[..n][i];
    }
    if i :| 0 <= i < |acts| && PageHas(acts[i], source, url) {
      if i < n { assert acts[..n][i] == acts[i]; }
    }
  }

  // ---- retirement ---------------------------------------------------------------------------

  /** Another source has served the listing in a page and last saw it at that time or later. */
  ghost predicate ServedSince(acts: seq<Act>, url: string, source: Source, since: int) {
    exists other: Source :: other != source && Served(acts, other, url)
      && LastSeen(acts, other, url).Some? && LastSeen(acts, other, url).value >= since
  }

  lemma ExemptIs(rules: Rules, acts: seq<Act>, url: string, source: Source, since: int)
    ensures Exempt(Run(rules, EMPTY, acts), url, source, since) <==> ServedSince(acts, url, source, since)
  {
    hide Run, Served, LastSeen;
    SightingsFollowTheRun(rules, acts, Cdp, url);
    SightingsFollowTheRun(rules, acts, PayAi, url);
    SightingsFollowTheRun(rules, acts, GoPlausible, url);
  }

  /** The generation of the sweep that the operation belongs to. */
  function SweepOf(a: Db, act: Act): nat {
    var st := StateOf(a, act.source);
    if act.DoTrickle? && st.started.None? then st.generation + 1
    else if (act.DoTrickle? || act.DoPage?) && st.generation == 0 then 1
    else st.generation
  }

  /** The operation ends its source's sweep: asked to, with a page marked last or reaching the total; and a fetched
      page when it is empty, when it is short and comes without pagination, when it reaches the total by its own
      offset or by the cursor, or when no total is given and it is shorter than its limit. */
  predicate EndsSweep(a: Db, act: Act) {
    match act
    case DoComplete(s, _) => StateOf(a, s).generation >= 1
    case DoPage(s, items, offset, last, total, step, _) =>
      last || (total.Some? && (if offset > 0 then offset else 0) + (if step >= 1 then step else |items|) >= total.value)
    case DoTrickle(s, fetched, _) => fetched.Page? && FetchEnds(a, s, fetched.items, fetched.pagination)
    case _ => false
  }

  predicate FetchEnds(a: Db, source: Source, items: seq<Listing>, pagination: Option<Pagination>) {
    items == [] ||
    match pagination
    case None => |items| < 100
    case Some(p) =>
      if p.total.None? then p.limit.Some? && |items| < p.limit.value
      else
        var stored := if |items| < 100 then |items| else 100;
        var step := if p.limit.Some? && p.limit.value > stored then p.limit.value else stored;
        (if p.offset.Some? then p.offset.value else 0) + |items| >= p.total.value
        || (if StateOf(a, source).started.Some? then StateOf(a, source).cursor else 0) + step >= p.total.value
  }

  /** What finishing retires, from a state whose rows are those of a run. */
  predicate Retires(a: Db, b: Db, url: string, ts: int) {
    && url in a.resources && a.resources[url].active && url in b.resources
    && b.resources[url] == a.resources[url].(active := false, retiredAt := Some(ts))
  }

  lemma FinishRetires(rules: Rules, db: Db, source: Source, ts: int, url: string)
    ensures var b := Finish(rules, db, source, ts);
            && (url in b.resources <==> url in db.resources)
            && (url in db.resources ==>
                  b.resources[url] ==
                  if db.resources[url].active && Key(url, source) in db.seen
                     && db.seen[Key(url, source)].generation != Some(StateOf(db, source).generation)
                     && !Exempt(db, url, source, ts - rules.horizon)
                  then db.resources[url].(active := false, retiredAt := Some(ts)) else db.resources[url])
  {
    hide Finish, Exempt;
    FinishDoes(rules, db, source, ts);
  }

  /** The state after a page is stored and before its sweep may end. */
  lemma PageStored(rules: Rules, db: Db, s: Source, items: seq<Listing>, st: SourceState, moved: SourceState, ts: int,
                   url: string)
    requires st.generation == moved.generation
    ensures var begun := Started(db, s, ts);
            var m := SetState(UpsertAll(rules, begun, items, s, Some(st.generation), ts), s, moved);
            && StateOf(m, s) == moved
            && (url in Urls(items) ==> url in m.resources && m.resources[url].active && Key(url, s) in m.seen
                                       && m.seen[Key(url, s)].generation == Some(st.generation))
            && (url !in Urls(items) ==> (url in m.resources <==> url in db.resources)
                                        && (Key(url, s) in m.seen <==> Key(url, s) in db.seen))
            && (url !in Urls(items) && url in db.resources ==> m.resources[url] == db.resources[url])
            && (url !in Urls(items) && Key(url, s) in db.seen ==> m.seen[Key(url, s)] == db.seen[Key(url, s)])
            && (Exempt(m, url, s, ts - rules.horizon) <==> Exempt(db, url, s, ts - rules.horizon))
  {
    hide UpsertAll, Urls, Exempt;
    var begun := Started(db, s, ts);
    var stored := UpsertAll(rules, begun, items, s, Some(st.generation), ts);
    UpsertAllDoes(rules, begun, items, s, Some(st.generation), ts);
    SameExempt(begun, stored, Urls(items), s, Some(st.generation), ts - rules.horizon);
    SameSeenExempt(db, begun, url, s, ts - rules.horizon);
    SameSeenExempt(stored, SetState(stored, s, moved), url, s, ts - rules.horizon);
  }

  /** One ingested page: a listing outside of it is retired exactly if the page ends the sweep, the source has a row
      for it without this sweep's stamp, and it is not exempt; one inside is active. */
  lemma PageRetires(rules: Rules, db: Db, s: Source, items: seq<Listing>, offset: int, last: bool, total: Option<nat>,
                    step: int, ts: int, url: string)
    ensures var b := IngestPage(rules, db, s, items, offset, last, total, step, ts);
            var ends := EndsSweep(db, DoPage(s, items, offset, last, total, step, ts));
            var generation := if StateOf(db, s).generation == 0 then 1 else StateOf(db, s).generation;
            && (url in Urls(items) ==> url in b.resources && b.resources[url].active)
            && (url !in Urls(items) ==> (url in b.resources <==> url in db.resources))
            && (url !in Urls(items) && url in db.resources ==>
                  b.resources[url] ==
                  if ends && db.resources[url].active && Key(url, s) in db.seen
                     && db.seen[Key(url, s)].generation != Some(generation)
                     && !Exempt(db, url, s, ts - rules.horizon)
                  then db.resources[url].(active := false, retiredAt := Some(ts)) else db.resources[url])
  {
    hide UpsertAll, Finish, Urls, Exempt, StateOf, SetState, Started;
    var begun := Started(db, s, ts);
    var st := StateOf(begun, s);
    StartedIs(db, s, ts);
    var stored := UpsertAll(rules, begun, items, s, Some(st.generation), ts);
    var cursor := Max(offset, 0) + if step < 1 then |items| else step;
    var moved := st.(cursor := cursor, total := if total.Some? then total else st.total);
    PageStored(rules, db, s, items, st, moved, ts, url);
    FinishRetires(rules, SetState(stored, s, moved), s, ts, url);
  }

  lemma StartedIs(db: Db, s: Source, ts: int)
    ensures var begun := Started(db, s, ts);
            && begun.seen == db.seen && begun.resources == db.resources
            && StateOf(begun, s).generation == (if StateOf(db, s).generation == 0 then 1 else StateOf(db, s).generation)
  {
  }

  /** What one operation makes of an active listing; `exempt` is about the state before it. */
  ghost predicate Fate(rules: Rules, a: Db, b: Db, act: Act, url: string)
    requires url in a.resources
  {
    && url in b.resources
    && (if EndsSweep(a, act) && Key(url, act.source) in a.seen
           && a.seen[Key(url, act.source)].generation != Some(SweepOf(a, act))
           && !PageHas(act, act.source, url) && !Exempt(a, url, act.source, act.ts - rules.horizon)
        then b.resources[url] == a.resources[url].(active := false, retiredAt := Some(act.ts))
        else b.resources[url].active)
  }

  lemma UpsertKeepsActive(rules: Rules, db: Db, item: Listing, source: Source, ts: int, url: string)
    requires url in db.resources && db.resources[url].active
    ensures var b := Upsert(rules, db, item, source, None, ts); url in b.resources && b.resources[url].active
  {
    hide Upsert;
    if item.url == "" { UpsertNothing(rules, db, item, source, None, ts); }
    else { UpsertTables(rules, db, item, source, None, ts); }
  }

  lemma TrickleFate(rules: Rules, db: Db, s: Source, fetched: Fetch, ts: int, url: string)
    requires url in db.resources && db.resources[url].active
    ensures Fate(rules, db, Trickle(rules, db, s, fetched, ts), DoTrickle(s, fetched, ts), url)
  {
    hide IngestPage, Urls, FirstPage, Exempt, PageHas;
    var begun := if StateOf(db, s).started.None? then Begin(db, s, ts) else db;
    SameSeenExempt(db, begun, url, s, ts - rules.horizon);
    match fetched
    case Failed =>
    case Page(items, pagination) =>
      var offset := StateOf(begun, s).cursor;
      var slim := FirstPage(items);
      var step := StepOf(|slim|, pagination);
      var total := TotalOf(pagination);
      var last := IsLast(|items|, pagination) || (total.Some? && offset + Max(step, |slim|) >= total.value)
                  || |slim| == 0;
      FirstHundred(items, url);
      HasIs(s, fetched, ts, url);
      SlimIs(items);
      PageRetires(rules, begun, s, slim, offset, last, total, step, ts, url);
      EndsIs(db, begun, s, items, pagination, ts);
  }

  lemma SlimIs(items: seq<Listing>)
    ensures |FirstPage(items)| == if |items| < 100 then |items| else 100
  {
  }

  lemma HasIs(s: Source, fetched: Fetch, ts: int, url: string)
    requires fetched.Page?
    ensures PageHas(DoTrickle(s, fetched, ts), s, url) <==> url in Urls(FirstPage(fetched.items))
  {
    hide Urls, FirstPage;
    FirstHundred(fetched.items, url);
  }

  /** A fetched page is the last one for the store exactly when it ends the sweep. */
  lemma EndsIs(db: Db, begun: Db, s: Source, items: seq<Listing>, pagination: Option<Pagination>, ts: int)
    requires begun == if StateOf(db, s).started.None? then Begin(db, s, ts) else db
    ensures var offset := StateOf(begun, s).cursor;
            var slim := FirstPage(items);
            var step := StepOf(|slim|, pagination);
            var total := TotalOf(pagination);
            var last := IsLast(|items|, pagination) || (total.Some? && offset + Max(step, |slim|) >= total.value)
                        || |slim| == 0;
            EndsSweep(begun, DoPage(s, slim, offset, last, total, step, ts)) <==> FetchEnds(db, s, items, pagination)
  {
    hide FirstPage;
    SlimIs(items);
  }

  lemma StepFate(rules: Rules, db: Db, act: Act, url: string)
    requires url in db.resources && db.resources[url].active
    ensures Fate(rules, db, Step(rules, db, act), act, url)
  {
    hide Upsert, Finish, IngestPage, Trickle, Urls, Exempt, FetchEnds;
    match act
    case DoUpsert(item, s, ts) => UpsertKeepsActive(rules, db, item, s, ts, url);
    case DoBegin(s, ts) =>
    case DoComplete(s, ts) => FinishRetires(rules, db, s, ts, url);
    case DoPage(s, items, offset, last, total, step, ts) =>
      PageRetires(rules, db, s, items, offset, last, total, step, ts, url);
      UrlIsIn(items, url);
    case DoTrickle(s, fetched, ts) => TrickleFate(rules, db, s, fetched, ts, url);
  }

  /** From every reachable state, for every operation and active listing: it is retired exactly if the operation ends
      its source's sweep, the source has stored the listing before but neither in this sweep nor in this page, and no
      other source has served it in a page and last seen it within the horizon; then it bears this time. */
  lemma RetiredIff(rules: Rules, acts: seq<Act>, act: Act, url: string)
    requires var a := Run(rules, EMPTY, acts); url in a.resources && a.resources[url].active
    ensures var a := Run(rules, EMPTY, acts);
            var b := Step(rules, a, act);
            var key := Key(url, act.source);
            && url in b.resources
            && (!b.resources[url].active ==> b.resources[url].retiredAt == Some(act.ts))
            && (!b.resources[url].active <==>
                  && EndsSweep(a, act)
                  && LastSeen(acts, act.source, url).Some? && key in a.seen
                  && a.seen[key].generation != Some(SweepOf(a, act))
                  && !PageHas(act, act.source, url)
                  && !ServedSince(acts, url, act.source, act.ts - rules.horizon))
  {
    hide Run, Step, EndsSweep, SweepOf, PageHas, Exempt, ServedSince, LastSeen, Served;
    var a := Run(rules, EMPTY, acts);
    SightingsFollowTheRun(rules, acts, act.source, url);
    ExemptIs(rules, acts, url, act.source, act.ts - rules.horizon);
    StepFate(rules, a, act, url);
  }

  /** The clock does not go back. */
  ghost predicate InTime(acts: seq<Act>) {
    forall i, j :: 0 <= i < j < |acts| ==> acts[i].ts <= acts[j].ts
  }

  lemma {:induction false} SeenNotBefore(acts: seq<Act>, source: Source, url: string, i: nat)
    requires InTime(acts) && i < |acts| && PageHas(acts[i], source, url)
    ensures LastSeen(acts, source, url).Some? && LastSeen(acts, source, url).value >= acts[i].ts
    decreases |acts|
  {
    hide PageHas, UpsertHas;
    var n := |acts| - 1;
    if i < n {
      assert acts[..n][i] == acts[i];
      SeenNotBefore(acts[..n], source, url, i);
    }
  }

  /** A listing that another source served in a page within the horizon stays active, whatever ends. */
  lemma RecentlyServedStays(rules: Rules, acts: seq<Act>, act: Act, url: string, other: Source, i: nat)
    requires var a := Run(rules, EMPTY, acts); url in a.resources && a.resources[url].active
    requires InTime(acts) && i < |acts| && PageHas(acts[i], other, url) && other != act.source
    requires act.ts - rules.horizon <= acts[i].ts
    ensures var b := Step(rules, Run(rules, EMPTY, acts), act); url in b.resources && b.resources[url].active
  {
    hide Run, Step, EndsSweep, SweepOf, PageHas, LastSeen;
    SeenNotBefore(acts, other, url, i);
    assert ServedSince(acts, url, act.source, act.ts - rules.horizon);
    RetiredIff(rules, acts, act, url);
  }

  /** An active listing that its source did not serve in the sweep that ends, and that every other source has only
      upserted or last saw before the horizon, is retired. */
  lemma ForgottenIsRetired(rules: Rules, acts: seq<Act>, act: Act, url: string)
    requires var a := Run(rules, EMPTY, acts);
             && url in a.resources && a.resources[url].active && EndsSweep(a, act)
             && Key(url, act.source) in a.seen
             && a.seen[Key(url, act.source)].generation != Some(SweepOf(a, act)) && !PageHas(act, act.source, url)
    requires forall other: Source :: other != act.source ==>
               !Served(acts, other, url)
               || (LastSeen(acts, other, url).Some?
                   && LastSeen(acts, other, url).value < act.ts - rules.horizon)
    ensures var b := Step(rules, Run(rules, EMPTY, acts), act);
            url in b.resources && !b.resources[url].active && b.resources[url].retiredAt == Some(act.ts)
  {
    hide Run, Step, EndsSweep, SweepOf, PageHas, LastSeen, Served;
    SightingsFollowTheRun(rules, acts, act.source, url);
    RetiredIff(rules, acts, act, url);
  }
}
