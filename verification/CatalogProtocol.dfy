/** The catalog cache of `OpencodeGoCatalogService`: one shared fetch, a last-good fallback, and two
  * indexes that must always describe the last good list.
  */
module CatalogProtocol {
  import opened Prelude

  const CACHE_TTL_MS := 60 * 60 * 1000
  const ERROR_BACKOFF_MS := 5 * 60 * 1000
  const BUDGET_5H_USD := 12.0

  datatype Format = OpenAi | Anthropic

  datatype Entry = Entry(id: string, displayName: string, format: Format, cost: Option<real>)

  // ----- parsing the two tables ---------------------------------------------------------------------------

  /** A row of the Endpoints table, and of the Usage Limits table, as the patterns match them. */
  datatype EndpointRow = EndpointRow(name: string, id: string, messages: bool)
  datatype LimitRow = LimitRow(name: string, requestsPer5h: int)

  function Limits(rows: seq<LimitRow>, normalize: string -> string): map<string, real> {
    if rows == [] then map[]
    else
      var before, last := Limits(rows[..|rows| - 1], normalize), rows[|rows| - 1];
      if last.requestsPer5h <= 0 || normalize(last.name) in before then before
      else before[normalize(last.name) := BUDGET_5H_USD / (last.requestsPer5h as real)]
  }

  function EntryOf(row: EndpointRow, costs: map<string, real>, normalize: string -> string): Entry {
    var key := normalize(row.name);
    Entry(row.id, row.name, if row.messages then Anthropic else OpenAi, if key in costs then Some(costs[key]) else None)
  }

  function Entries(rows: seq<EndpointRow>, costs: map<string, real>, normalize: string -> string): seq<Entry> {
    if rows == [] then []
    else
      var before, last := Entries(rows[..|rows| - 1], costs, normalize), rows[|rows| - 1];
      if last.id in Ids(rows[..|rows| - 1]) then before else before + [EntryOf(last, costs, normalize)]
  }

  function Ids(rows: seq<EndpointRow>): set<string> {
    set i | 0 <= i < |rows| :: rows[i].id
  }

  method ParseLimits(rows: seq<LimitRow>, normalize: string -> string) returns (out: map<string, real>)
    ensures out == Limits(rows, normalize)
  {
    out := map[];
    var i := 0;
    while i < |rows|
      invariant i <= |rows| && out == Limits(rows[..i], normalize)
    {
      assert rows[..i + 1][..i] == rows[..i];
      var row := rows[i];
      i := i + 1;
      if row.requestsPer5h <= 0 { continue; }
      var key := normalize(row.name);
      if key in out { continue; }
      out := out[key := BUDGET_5H_USD / (row.requestsPer5h as real)];
    }
    assert rows[..i] == rows;
  }

  method Parse(endpoints: seq<EndpointRow>, limits: seq<LimitRow>, normalize: string -> string) returns (entries: seq<Entry>)
    ensures entries == Entries(endpoints, Limits(limits, normalize), normalize)
  {
    var costByName := ParseLimits(limits, normalize);
    entries := [];
    var seen: set<string> := {};
    var i := 0;
    while i < |endpoints|
      invariant i <= |endpoints| && entries == Entries(endpoints[..i], costByName, normalize) && seen == Ids(endpoints[..i])
    {
      assert endpoints[..i + 1][..i] == endpoints[..i];
      assert Ids(endpoints[..i + 1]) == Ids(endpoints[..i]) + {endpoints[i].id} by { IdsAppend(endpoints, i); }
      var row := endpoints[i];
      i := i + 1;
      if row.id in seen { continue; }
      seen := seen + {row.id};
      entries := entries + [EntryOf(row, costByName, normalize)];
    }
    assert endpoints[..i] == endpoints;
  }

  lemma IdsAppend(rows: seq<EndpointRow>, i: nat)
    requires i < |rows|
    ensures Ids(rows[..i + 1]) == Ids(rows[..i]) + {rows[i].id}
  {
    forall id ensures id in Ids(rows[..i + 1]) <==> id in Ids(rows[..i]) + {rows[i].id} {
      if id in Ids(rows[..i]) {
        var j :| 0 <= j < i && rows[..i][j].id == id;
        assert rows[..i + 1][j].id == id;
      }
      if id in Ids(rows[..i + 1]) {
        var j :| 0 <= j < i + 1 && rows[..i + 1][j].id == id;
        if j < i { assert rows[..i][j].id == id; }
      }
      assert rows[..i + 1][i] == rows[i];
    }
  }

  predicate UniqueIds(entries: seq<Entry>) {
    forall i, j | 0 <= i < j < |entries| :: entries[i].id != entries[j].id
  }

  lemma {:induction false} ParsedIdsAreUnique(rows: seq<EndpointRow>, costs: map<string, real>, normalize: string -> string)
    ensures UniqueIds(Entries(rows, costs, normalize))
    ensures forall e | e in Entries(rows, costs, normalize) :: e.id in Ids(rows)
  {
    if rows != [] {
      ParsedIdsAreUnique(rows[..|rows| - 1], costs, normalize);
      IdsAppend(rows, |rows| - 1);
      assert rows[..|rows| - 1 + 1] == rows;
    }
  }

  lemma FirstOfIdIsNew(rows: seq<EndpointRow>, i: nat)
    requires i < |rows|
    ensures FirstOfId(rows, i) <==> rows[i].id !in Ids(rows[..i])
  {
    if rows[i].id in Ids(rows[..i]) {
      var j :| 0 <= j < i && rows[..i][j].id == rows[i].id;
      assert rows[j].id == rows[i].id;
    } else {
      forall j | 0 <= j < i ensures rows[j].id != rows[i].id {
        assert rows[..i][j].id in Ids(rows[..i]);
      }
    }
  }

  /** Row `i` is the first of its id and makes the entry `e`. */
  predicate Makes(rows: seq<EndpointRow>, i: nat, costs: map<string, real>, normalize: string -> string, e: Entry) {
    i < |rows| && FirstOfId(rows, i) && e == EntryOf(rows[i], costs, normalize)
  }

  lemma MakesInFront(rows: seq<EndpointRow>, n: nat, i: nat, costs: map<string, real>, normalize: string -> string, e: Entry)
    requires i < n <= |rows|
    ensures Makes(rows, i, costs, normalize, e) == Makes(rows[..n], i, costs, normalize, e)
  {
    assert forall j | 0 <= j <= i :: rows[..n][j] == rows[j];
  }

  /** The entries are exactly those that the first row of each id makes. */
  lemma {:induction false} ParsedEntriesAreFirstRows(rows: seq<EndpointRow>, costs: map<string, real>, normalize: string -> string, e: Entry)
    ensures e in Entries(rows, costs, normalize) <==> exists i :: Makes(rows, i, costs, normalize, e)
  {
    if rows != [] {
      var n := |rows| - 1;
      ParsedEntriesAreFirstRows(rows[..n], costs, normalize, e);
      FirstOfIdIsNew(rows, n);
      if i: nat :| Makes(rows, i, costs, normalize, e) && i < n {
        MakesInFront(rows, n, i, costs, normalize, e);
      }
      if i: nat :| Makes(rows[..n], i, costs, normalize, e) {
        MakesInFront(rows, n, i, costs, normalize, e);
      }
      assert Makes(rows, n, costs, normalize, e) <==> rows[n].id !in Ids(rows[..n]) && e == EntryOf(rows[n], costs, normalize);
    }
  }

  predicate FirstOfId(rows: seq<EndpointRow>, i: nat)
    requires i < |rows|
  {
    forall j | 0 <= j < i :: rows[j].id != rows[i].id
  }

  /** Row `i` is the first with a positive limit for the name. */
  predicate FirstLimit(rows: seq<LimitRow>, i: nat, key: string, normalize: string -> string) {
    && i < |rows| && rows[i].requestsPer5h > 0 && normalize(rows[i].name) == key
    && forall j | 0 <= j < i :: rows[j].requestsPer5h > 0 ==> normalize(rows[j].name) != key
  }

  lemma {:induction false} LimitAt(rows: seq<LimitRow>, normalize: string -> string, key: string, i: nat)
    requires FirstLimit(rows, i, key, normalize)
    ensures key in Limits(rows, normalize) && Limits(rows, normalize)[key] == 12.0 / (rows[i].requestsPer5h as real)
  {
    var n := |rows| - 1;
    assert forall j | 0 <= j < n :: rows[..n][j] == rows[j];
    if i < n { LimitAt(rows[..n], normalize, key, i); } else { NoLimit(rows[..n], normalize, key); }
  }

  lemma {:induction false} NoLimit(rows: seq<LimitRow>, normalize: string -> string, key: string)
    requires forall j | 0 <= j < |rows| :: rows[j].requestsPer5h > 0 ==> normalize(rows[j].name) != key
    ensures key !in Limits(rows, normalize)
  {
    if rows != [] { NoLimit(rows[..|rows| - 1], normalize, key); }
  }

  lemma {:induction false} LimitHasRow(rows: seq<LimitRow>, normalize: string -> string, key: string) returns (i: nat)
    requires key in Limits(rows, normalize)
    ensures FirstLimit(rows, i, key, normalize)
  {
    var n := |rows| - 1;
    if key in Limits(rows[..n], normalize) {
      i := LimitHasRow(rows[..n], normalize, key);
      assert forall j | 0 <= j <= i :: rows[..n][j] == rows[j];
    } else {
      i := n;
      forall j | 0 <= j < n && rows[j].requestsPer5h > 0 ensures normalize(rows[j].name) != key {
        LimitIsKept(rows[..n], normalize, j);
      }
    }
  }

  lemma {:induction false} LimitIsKept(rows: seq<LimitRow>, normalize: string -> string, j: nat)
    requires j < |rows| && rows[j].requestsPer5h > 0
    ensures normalize(rows[j].name) in Limits(rows, normalize)
  {
    if j < |rows| - 1 { LimitIsKept(rows[..|rows| - 1], normalize, j); }
  }

  /** A name's cost is the budget over the requests of the first row with a positive limit for it. */
  lemma LimitsExactly(rows: seq<LimitRow>, normalize: string -> string, key: string)
    ensures key in Limits(rows, normalize) <==> exists i :: FirstLimit(rows, i, key, normalize)
    ensures forall i: nat | FirstLimit(rows, i, key, normalize) ::
      key in Limits(rows, normalize) && Limits(rows, normalize)[key] == 12.0 / (rows[i].requestsPer5h as real)
  {
    hide Limits;
    forall i: nat | FirstLimit(rows, i, key, normalize)
      ensures key in Limits(rows, normalize) && Limits(rows, normalize)[key] == 12.0 / (rows[i].requestsPer5h as real)
    {
      LimitAt(rows, normalize, key, i);
    }
    if key in Limits(rows, normalize) { var i := LimitHasRow(rows, normalize, key); }
  }

  /** What each listed model says: the name and the id of its first row, the format of its endpoint, and
    * the budget over the first positive limit under its name, or no cost without one. */
  lemma {:induction false} ParsedEntryExactly(endpoints: seq<EndpointRow>, limits: seq<LimitRow>, normalize: string -> string, e: Entry)
    requires e in Entries(endpoints, Limits(limits, normalize), normalize)
    ensures exists i: nat :: i < |endpoints| && FirstOfId(endpoints, i) && Describes(e, endpoints[i], limits, normalize)
  {
    hide Limits, FirstLimit;
    ParsedEntriesAreFirstRows(endpoints, Limits(limits, normalize), normalize, e);
    var i: nat :| Makes(endpoints, i, Limits(limits, normalize), normalize, e);
    LimitsExactly(limits, normalize, normalize(endpoints[i].name));
    assert Describes(e, endpoints[i], limits, normalize);
  }

  ghost predicate Describes(e: Entry, row: EndpointRow, limits: seq<LimitRow>, normalize: string -> string) {
    && e.id == row.id && e.displayName == row.name && (e.format == Anthropic <==> row.messages)
    && (e.cost.Some? <==> exists l :: FirstLimit(limits, l, normalize(row.name), normalize))
    && forall l: nat | FirstLimit(limits, l, normalize(row.name), normalize) :: e.cost == Some(12.0 / (limits[l].requestsPer5h as real))
  }

  /** The models are listed in the order of the table: listing more rows only appends. */
  lemma {:induction false} EntriesKeepOrder(rows: seq<EndpointRow>, n: nat, costs: map<string, real>, normalize: string -> string)
    requires n <= |rows|
    ensures Entries(rows[..n], costs, normalize) <= Entries(rows, costs, normalize)
    decreases |rows|
  {
    if n == |rows| {
      assert rows[..n] == rows;
    } else {
      EntriesKeepOrder(rows[..|rows| - 1], n, costs, normalize);
      assert rows[..|rows| - 1][..n] == rows[..n];
    }
  }

  // ----- the indexes --------------------------------------------------------------------------------------

  function Formats(entries: seq<Entry>): map<string, Format> {
    if entries == [] then map[]
    else Formats(entries[..|entries| - 1])[entries[|entries| - 1].id := entries[|entries| - 1].format]
  }

  function Costs(entries: seq<Entry>): map<string, real> {
    if entries == [] then map[]
    else
      var before, last := Costs(entries[..|entries| - 1]), entries[|entries| - 1];
      if last.cost.Some? then before[last.id := last.cost.value] else before
  }

  /** With unique ids, an index answers for exactly the listed models, with the listed value. */
  lemma {:induction false} IndexesProject(entries: seq<Entry>, id: string)
    requires UniqueIds(entries)
    ensures id in Formats(entries) <==> exists i | 0 <= i < |entries| :: entries[i].id == id
    ensures id in Costs(entries) <==> exists i | 0 <= i < |entries| :: entries[i].id == id && entries[i].cost.Some?
    ensures forall i | 0 <= i < |entries| && entries[i].id == id ::
      Formats(entries)[id] == entries[i].format && (entries[i].cost.Some? ==> Costs(entries)[id] == entries[i].cost.value)
  {
    if entries != [] {
      var n := |entries| - 1;
      IndexesProject(entries[..n], id);
      assert forall i | 0 <= i < n :: entries[..n][i] == entries[i];
    }
  }

  // ----- states and steps -----------------------------------------------------------------------------------

  type FetchId = nat

  datatype Cached = Cached(entries: seq<Entry>, expiresAt: int)

  /** `settled`: the fetch has updated the cache, its `finally` callback has not run yet. */
  datatype Fetch = Fetch(startedAt: int, settled: bool)

  /** The service's fields, the fetches not yet finalized, and the times fetches were started. */
  datatype State = State(
    cache: Option<Cached>,
    lastGood: Option<seq<Entry>>,
    costs: map<string, real>,
    formats: map<string, Format>,
    inflight: Option<FetchId>,
    fetches: map<FetchId, Fetch>,
    starts: seq<int>)

  const INITIAL := State(None, None, map[], map[], None, map[], [])

  datatype Event =
    | List(now: int, next: FetchId)
    | Refresh(now: int, next: FetchId)
    | Reset
    | Settle(fetch: FetchId, parsed: Option<seq<Entry>>)
    | Finalize(fetch: FetchId)

  predicate Enabled(s: State, e: Event) {
    match e
    case List(_, next) => next !in s.fetches
    case Refresh(_, next) => next !in s.fetches
    case Reset => true
    case Settle(f, _) => f in s.fetches && !s.fetches[f].settled
    case Finalize(f) => f in s.fetches && s.fetches[f].settled
  }

  function Started(s: State, now: int, next: FetchId): State {
    s.(inflight := Some(next), fetches := s.fetches[next := Fetch(now, false)], starts := s.starts + [now])
  }

  predicate Fresh(s: State, now: int) {
    s.cache.Some? && s.cache.value.expiresAt > now
  }

  /** A good list replaces everything; a failure, or a list that parsed to nothing, falls back. */
  function Landed(s: State, now: int, parsed: Option<seq<Entry>>): State {
    if parsed.Some? && parsed.value != [] then
      s.(cache := Some(Cached(parsed.value, now + CACHE_TTL_MS)), lastGood := parsed,
         costs := Costs(parsed.value), formats := Formats(parsed.value))
    else
      s.(cache := Some(Cached(s.lastGood.GetOr([]), now + ERROR_BACKOFF_MS)))
  }

  function Next(s: State, e: Event): State
    requires Enabled(s, e)
  {
    match e
    case List(now, next) => if Fresh(s, now) || s.inflight.Some? then s else Started(s, now, next)
    case Refresh(now, next) => Started(s, now, next)
    case Reset => s.(cache := None, lastGood := None, costs := map[], formats := map[], inflight := None)
    case Settle(f, parsed) =>
      Landed(s, s.fetches[f].startedAt, parsed).(fetches := s.fetches[f := s.fetches[f].(settled := true)])
    case Finalize(f) =>
      s.(inflight := if s.inflight == Some(f) then None else s.inflight, fetches := s.fetches - {f})
  }

  /** The cache holds the last good list or nothing; the indexes are its projections. */
  ghost predicate Consistent(s: State) {
    && (s.cache.Some? ==> s.cache.value.entries == s.lastGood.GetOr([]))
    && s.costs == Costs(s.lastGood.GetOr([]))
    && s.formats == Formats(s.lastGood.GetOr([]))
    && (s.inflight.Some? ==> s.inflight.value in s.fetches)
  }

  ghost predicate StepAt(states: seq<State>, events: seq<Event>, j: nat)
    requires |states| == |events| + 1 && j < |events|
  {
    Enabled(states[j], events[j]) && states[j + 1] == Next(states[j], events[j])
  }

  ghost predicate Run(states: seq<State>, events: seq<Event>) {
    && |states| == |events| + 1
    && states[0] == INITIAL
    && forall j: nat | j < |events| :: StepAt(states, events, j)
  }

  /** However calls, refreshes, resets and landing fetches interleave. */
  lemma {:induction false} AlwaysConsistent(states: seq<State>, events: seq<Event>, j: nat)
    requires Run(states, events) && j < |states|
    ensures Consistent(states[j])
  {
    if j > 0 {
      AlwaysConsistent(states, events, j - 1);
      assert StepAt(states, events, j - 1);
    }
  }

  /** The last good list is one that some fetch parsed. */
  lemma {:induction false} LastGoodWasParsed(states: seq<State>, events: seq<Event>, j: nat)
    requires Run(states, events) && j < |states|
    ensures states[j].lastGood.Some? ==>
      states[j].lastGood.value != [] && exists i | 0 <= i < j :: events[i].Settle? && events[i].parsed == states[j].lastGood
  {
    if j > 0 {
      LastGoodWasParsed(states, events, j - 1);
      assert StepAt(states, events, j - 1);
      if states[j].lastGood.Some? && states[j].lastGood != states[j - 1].lastGood {
        assert events[j - 1].Settle? && events[j - 1].parsed == states[j].lastGood;
      }
    }
  }

  /** After a fetch has landed, `list` serves its list for an hour after the fetch began, or the fallback
    * for five minutes when it failed or found nothing; then it starts one fetch, unless one is in flight. */
  lemma ListServesWhileFresh(s: State, f: FetchId, parsed: Option<seq<Entry>>, now: int, next: FetchId)
    requires Enabled(s, Settle(f, parsed)) && next !in s.fetches
    ensures var t, good := Next(s, Settle(f, parsed)), parsed.Some? && parsed.value != [];
      var served := now < s.fetches[f].startedAt + (if good then 3_600_000 else 300_000);
      && t.cache.Some? && t.cache.value.entries == (if good then parsed.value else s.lastGood.GetOr([]))
      && t.lastGood == (if good then parsed else s.lastGood) && t.inflight == s.inflight
      && (served || t.inflight.Some? ==> Next(t, List(now, next)) == t)
      && (!served && t.inflight.None? ==>
            var u := Next(t, List(now, next));
            u.inflight == Some(next) && u.fetches == t.fetches[next := Fetch(now, false)] && u.cache == t.cache && u.lastGood == t.lastGood)
  {
    hide Costs, Formats;
  }

  /** The first `list` of a process starts a fetch, and so does every `refresh`, whatever is cached or in
    * flight; a reset forgets everything, but not what was fetched before it. */
  lemma StartsAndResets(s: State, now: int, next: FetchId)
    requires next !in s.fetches
    ensures Next(INITIAL, List(now, next)).inflight == Some(next)
    ensures var t := Next(s, Refresh(now, next));
      t == s.(inflight := Some(next), fetches := s.fetches[next := Fetch(now, false)], starts := s.starts + [now])
    ensures Next(s, Reset) == INITIAL.(fetches := s.fetches, starts := s.starts)
  {
  }

  // ----- in what order lists land ---------------------------------------------------------------------------

  /** The step puts a new fetch in flight. */
  predicate StartsFetch(s: State, e: Event) {
    match e
    case List(now, _) => !Fresh(s, now) && s.inflight.None?
    case Refresh(_, _) => true
    case _ => false
  }

  function StartedId(e: Event): FetchId
    requires e.List? || e.Refresh?
  {
    e.next
  }

  predicate AllSettled(s: State) {
    forall f | f in s.fetches :: s.fetches[f].settled
  }

  predicate Unsettled(s: State, f: FetchId) {
    f in s.fetches && !s.fetches[f].settled
  }

  /** No fetch starts while another has not landed. */
  ghost predicate OneAtATime(states: seq<State>, events: seq<Event>)
    requires |states| == |events| + 1
  {
    forall j | 0 <= j < |events| && StartsFetch(states[j], events[j]) :: AllSettled(states[j])
  }

  predicate Restarts(s: State, e: Event, f: FetchId) {
    StartsFetch(s, e) && StartedId(e) == f
  }

  /** Event `m` is the landing of the fetch that event `i` started. */
  ghost predicate Lands(states: seq<State>, events: seq<Event>, i: nat, m: nat)
    requires |states| == |events| + 1
  {
    && i < m < |events|
    && StartsFetch(states[i], events[i])
    && events[m].Settle? && events[m].fetch == StartedId(events[i])
    && forall n | i < n < m :: !Restarts(states[n], events[n], StartedId(events[i]))
  }

  lemma {:induction false} UnsettledUntilLanding(states: seq<State>, events: seq<Event>, i: nat, n: nat, m: nat)
    requires Run(states, events) && Lands(states, events, i, m) && i < n <= m
    ensures Unsettled(states[n], StartedId(events[i]))
    decreases m - n
  {
    assert StepAt(states, events, n);
    if n < m {
      UnsettledUntilLanding(states, events, i, n + 1, m);
      assert !Restarts(states[n], events[n], StartedId(events[i]));
    }
  }

  /** When no fetch starts while another has not landed, fetches land in the order in which they were
    * started, whatever the clock does, so no list is ever replaced by one fetched earlier. */
  lemma LandsInStartOrder(states: seq<State>, events: seq<Event>, i: nat, m: nat, j: nat, n: nat)
    requires Run(states, events) && OneAtATime(states, events)
    requires Lands(states, events, i, m) && Lands(states, events, j, n) && i < j
    ensures m < j < n
  {
    if j < m { UnsettledUntilLanding(states, events, i, j, m); }
  }

  /** Whenever two fetches have not landed, they can land in reverse: the list of `f`, whichever was
    * started first, then replaces the one `g` has just brought. */
  lemma TwoInFlightCanReverse(s: State, f: FetchId, g: FetchId, older: seq<Entry>, newer: seq<Entry>)
    requires Unsettled(s, f) && Unsettled(s, g) && f != g && older != [] && newer != []
    ensures Enabled(s, Settle(g, Some(newer)))
    ensures var t := Next(s, Settle(g, Some(newer)));
      && t.lastGood == Some(newer)
      && Enabled(t, Settle(f, Some(older)))
      && Next(t, Settle(f, Some(older))).lastGood == Some(older)
  {
  }

  /** Two fetches have not landed, so they can land in either order. */
  ghost predicate CanReverse(s: State) {
    exists f, g :: f != g && Unsettled(s, f) && Unsettled(s, g)
  }

  lemma StartMakesTwo(s: State, e: Event)
    requires Enabled(s, e) && StartsFetch(s, e) && !CanReverse(s)
    ensures CanReverse(Next(s, e)) <==> !AllSettled(s)
  {
    var t, f := Next(s, e), StartedId(e);
    assert Unsettled(t, f);
    if g :| g in s.fetches && !s.fetches[g].settled {
      assert Unsettled(t, g) && f != g;
    }
    if CanReverse(t) {
      var a, b :| a != b && Unsettled(t, a) && Unsettled(t, b);
      assert a != f ==> Unsettled(s, a);
      assert b != f ==> Unsettled(s, b);
    }
  }

  lemma OthersMakeNone(s: State, e: Event)
    requires Enabled(s, e) && !StartsFetch(s, e) && !CanReverse(s)
    ensures !CanReverse(Next(s, e))
  {
    var t := Next(s, e);
    forall f | Unsettled(t, f) ensures Unsettled(s, f) {}
  }

  lemma {:induction false} NeverTwo(states: seq<State>, events: seq<Event>, j: nat)
    requires Run(states, events) && OneAtATime(states, events) && j < |states|
    ensures !CanReverse(states[j])
  {
    if j > 0 {
      NeverTwo(states, events, j - 1);
      assert StepAt(states, events, j - 1);
      var s, e := states[j - 1], events[j - 1];
      if StartsFetch(s, e) { StartMakesTwo(s, e); } else { OthersMakeNone(s, e); }
    }
  }

  /** Starting no fetch while another has not landed is exactly what keeps a run out of the states from
    * which lists can land in reverse. */
  lemma OneAtATimeExactly(states: seq<State>, events: seq<Event>)
    requires Run(states, events)
    ensures OneAtATime(states, events) <==> forall j: nat | j < |states| :: !CanReverse(states[j])
  {
    if OneAtATime(states, events) {
      forall j: nat | j < |states| ensures !CanReverse(states[j]) { NeverTwo(states, events, j); }
    }
    if forall j: nat | j < |states| :: !CanReverse(states[j]) {
      forall j: nat | j < |events| && StartsFetch(states[j], events[j]) ensures AllSettled(states[j]) {
        assert StepAt(states, events, j);
        StartMakesTwo(states[j], events[j]);
      }
    }
  }

  const OLD_LIST := [Entry("old", "Old", OpenAi, None)]
  const NEW_LIST := [Entry("new", "New", OpenAi, None)]

  /** Two refreshes are enough: the one that started first lands last and puts its older list back. */
  lemma OlderFetchCanLandLast()
    ensures exists states, events :: Run(states, events) && GoesBack(states, events)
  {
    var events := [Refresh(0, 0), Refresh(1, 1), Settle(1, Some(NEW_LIST)), Settle(0, Some(OLD_LIST))];
    var s1 := Next(INITIAL, events[0]);
    var s2 := Next(s1, events[1]);
    TwoInFlightCanReverse(s2, 0, 1, OLD_LIST, NEW_LIST);
    var s3 := Next(s2, events[2]);
    var states := [INITIAL, s1, s2, s3, Next(s3, events[3])];
    forall j: nat | j < |events| ensures StepAt(states, events, j) {
      assert j == 0 || j == 1 || j == 2 || j == 3;
    }
    assert Run(states, events) && GoesBack(states, events);
  }

  ghost predicate GoesBack(states: seq<State>, events: seq<Event>) {
    && |states| == 5
    && events == [Refresh(0, 0), Refresh(1, 1), Settle(1, Some(NEW_LIST)), Settle(0, Some(OLD_LIST))]
    && states[3].lastGood == Some(NEW_LIST) && states[4].lastGood == Some(OLD_LIST)
  }

  /** The `finally` callback of a fetch leaves a newer in-flight fetch alone. */
  lemma {:induction false} FinalizeSparesNewer(states: seq<State>, events: seq<Event>, j: nat, f: FetchId)
    requires Run(states, events) && j < |events|
    requires states[j].inflight == Some(f) && events[j] != Finalize(f)
    ensures states[j + 1].inflight == Some(f) || events[j].Refresh? || events[j].Reset?
  {
    assert StepAt(states, events, j);
  }

  // ----- list() alone: one fetch at a time, spaced by the backoff --------------------------------------------

  predicate ListOnly(e: Event) {
    !e.Refresh? && !e.Reset?
  }

  ghost predicate Spaced(s: State) {
    && (forall i | 0 < i < |s.starts| :: s.starts[i] >= s.starts[i - 1] + ERROR_BACKOFF_MS)
    && (match s.inflight
        case Some(f) =>
          && s.fetches.Keys == {f}
          && s.starts != [] && s.fetches[f].startedAt == s.starts[|s.starts| - 1]
          && (s.fetches[f].settled ==> BacksOff(s))
        case None => s.fetches == map[] && (s.starts != [] ==> BacksOff(s)))
  }

  ghost predicate BacksOff(s: State)
    requires s.starts != []
  {
    s.cache.Some? && s.cache.value.expiresAt >= s.starts[|s.starts| - 1] + ERROR_BACKOFF_MS
  }

  lemma ListKeepsSpacing(s: State, e: Event)
    requires Spaced(s) && Enabled(s, e) && ListOnly(e)
    ensures Spaced(Next(s, e))
  {
    hide Costs, Formats;
    match e {
      case List(now, next) => if !Fresh(s, now) && s.inflight.None? { ListStartIsSpaced(s, now, next); }
      case Settle(f, parsed) => assert s.inflight == Some(f);
      case Finalize(f) => assert s.inflight == Some(f);
    }
  }

  lemma ListStartIsSpaced(s: State, now: int, next: FetchId)
    requires Spaced(s) && next !in s.fetches && !Fresh(s, now) && s.inflight.None?
    ensures Spaced(Started(s, now, next))
  {
  }

  lemma SpacedMeaning(s: State)
    requires Spaced(s)
    ensures |s.fetches| <= 1 && forall i | 0 < i < |s.starts| :: s.starts[i] >= s.starts[i - 1] + ERROR_BACKOFF_MS
  {
    if s.inflight.Some? {
      assert s.fetches.Keys == {s.inflight.value};
      assert |s.fetches| == |s.fetches.Keys|;
    }
  }

  /** With `list` as the only caller at most one fetch is outstanding, and fetches start at least the
    * error backoff apart, whatever the fetches return and whatever the clock does. */
  lemma {:induction false} ListFetchesAreSpaced(states: seq<State>, events: seq<Event>, j: nat)
    requires Run(states, events) && j < |states|
    requires forall e | e in events :: ListOnly(e)
    ensures |states[j].fetches| <= 1
    ensures forall i | 0 < i < |states[j].starts| :: states[j].starts[i] >= states[j].starts[i - 1] + ERROR_BACKOFF_MS
    ensures Spaced(states[j])
  {
    if j > 0 {
      hide Spaced, Next, Enabled;
      ListFetchesAreSpaced(states, events, j - 1);
      assert StepAt(states, events, j - 1);
      ListKeepsSpacing(states[j - 1], events[j - 1]);
    }
    SpacedMeaning(states[j]);
  }

  /** So with `list` as the only caller, lists always land in start order. */
  lemma ListAloneIsOneAtATime(states: seq<State>, events: seq<Event>)
    requires Run(states, events)
    requires forall e | e in events :: ListOnly(e)
    ensures OneAtATime(states, events)
  {
    forall j | 0 <= j < |events| && StartsFetch(states[j], events[j]) ensures AllSettled(states[j]) {
      ListFetchesAreSpaced(states, events, j);
      assert events[j] in events;
    }
  }
}
