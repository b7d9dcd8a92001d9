/** The registry of confirmed model ids: live registrations, and a cache load that reads pages by key
  * and publishes once at its end.
  */
module ModelRegistry {
  import opened Prelude

  const CACHE_LOAD_BATCH_SIZE: nat := 500

  /** JavaScript's toLowerCase; all that matters here is that lowering twice is lowering once. */
  type Lower = string -> string

  ghost predicate Idempotent(lower: Lower) {
    forall s :: lower(lower(s)) == lower(s)
  }

  /** An id that is not a string is the empty one; endpoints that are not strings are left out. */
  datatype Registration = Registration(id: string, endpoints: seq<string>)

  datatype Entry = Entry(id: string, endpoints: Option<seq<string>>)

  type Models = map<string, Entry>
  type Registry = map<string, Models>

  // ----- entries ------------------------------------------------------------------------------------------

  /** Non-empty endpoints, each once, in first-seen order. */
  function Clean(endpoints: seq<string>): seq<string> {
    if |endpoints| == 0 then []
    else
      var before, last := Clean(endpoints[..|endpoints| - 1]), endpoints[|endpoints| - 1];
      if last == "" || last in before then before else before + [last]
  }

  predicate IsClean(endpoints: seq<string>) {
    (forall i | 0 <= i < |endpoints| :: endpoints[i] != "")
    && forall i, j | 0 <= i < j < |endpoints| :: endpoints[i] != endpoints[j]
  }

  lemma {:induction false} CleanIsClean(endpoints: seq<string>)
    ensures IsClean(Clean(endpoints))
    ensures forall e :: e in Clean(endpoints) <==> e != "" && e in endpoints
  {
    if endpoints != [] {
      CleanIsClean(endpoints[..|endpoints| - 1]);
      assert endpoints == endpoints[..|endpoints| - 1] + [endpoints[|endpoints| - 1]];
    }
  }

  lemma {:induction false} CleanKeepsClean(endpoints: seq<string>)
    requires IsClean(endpoints)
    ensures Clean(endpoints) == endpoints
  {
    if endpoints != [] {
      CleanKeepsClean(endpoints[..|endpoints| - 1]);
    }
  }

  function ToRegistryEntry(r: Registration, lower: Lower): Option<Entry> {
    if r.id == "" then None
    else
      var endpoints := Clean(r.endpoints);
      Some(Entry(lower(r.id), if |endpoints| == 0 then None else Some(endpoints)))
  }

  /** A later registration keeps earlier endpoints it does not bring itself. */
  function Merged(existing: Models, entry: Entry): Entry {
    if entry.endpoints.None? && entry.id in existing then entry.(endpoints := existing[entry.id].endpoints) else entry
  }

  function Add(existing: Models, r: Registration, lower: Lower): Models {
    var entry := ToRegistryEntry(r, lower);
    if entry.None? then existing else existing[entry.value.id := Merged(existing, entry.value)]
  }

  function AddFirst(existing: Models, models: seq<Registration>, n: nat, lower: Lower): Models
    requires n <= |models|
  {
    if n == 0 then existing else Add(AddFirst(existing, models, n - 1, lower), models[n - 1], lower)
  }

  function AddAll(existing: Models, models: seq<Registration>, lower: Lower): Models {
    AddFirst(existing, models, |models|, lower)
  }

  function ModelsOf(registry: Registry, key: string): Models {
    if key in registry then registry[key] else map[]
  }

  function Registered(registry: Registry, providerId: string, models: seq<Registration>, lower: Lower): Registry {
    var updated := AddAll(ModelsOf(registry, lower(providerId)), models, lower);
    if updated == map[] then registry else registry[lower(providerId) := updated]
  }

  method RegisterInto(target: Registry, providerId: string, models: seq<Registration>, lower: Lower) returns (r: Registry)
    ensures r == Registered(target, providerId, models, lower)
  {
    var key := lower(providerId);
    var existing: Models := if key in target then target[key] else map[];
    var i := 0;
    while i < |models|
      invariant i <= |models| && existing == AddFirst(ModelsOf(target, key), models, i, lower)
    {
      var entry := ToRegistryEntry(models[i], lower);
      i := i + 1;
      if entry.None? { continue; }
      existing := existing[entry.value.id := Merged(existing, entry.value)];
    }
    r := target;
    if existing != map[] { r := r[key := existing]; }
  }

  // ----- which ids are registered ------------------------------------------------------------------------------

  function IdsOfFirst(models: seq<Registration>, n: nat, lower: Lower): set<string>
    requires n <= |models|
  {
    if n == 0 then {}
    else IdsOfFirst(models, n - 1, lower) + (if models[n - 1].id != "" then {lower(models[n - 1].id)} else {})
  }

  function IdsOf(models: seq<Registration>, lower: Lower): set<string> {
    IdsOfFirst(models, |models|, lower)
  }

  lemma {:induction false} AddFirstIds(existing: Models, models: seq<Registration>, n: nat, lower: Lower)
    requires n <= |models|
    ensures AddFirst(existing, models, n, lower).Keys == existing.Keys + IdsOfFirst(models, n, lower)
  {
    if n > 0 { AddFirstIds(existing, models, n - 1, lower); }
  }

  /** The confirmed ids of a provider; empty when nothing is recorded. */
  function Ids(registry: Registry, key: string): set<string> {
    ModelsOf(registry, key).Keys
  }

  lemma RegisteredIds(registry: Registry, providerId: string, models: seq<Registration>, lower: Lower, key: string)
    ensures Ids(Registered(registry, providerId, models, lower), key) ==
            Ids(registry, key) + (if key == lower(providerId) then IdsOf(models, lower) else {})
  {
    AddFirstIds(ModelsOf(registry, lower(providerId)), models, |models|, lower);
  }

  /** No provider is recorded with nothing under it. */
  ghost predicate NoEmptyProvider(registry: Registry) {
    forall key | key in registry :: registry[key] != map[]
  }

  // ----- which endpoints are recorded ---------------------------------------------------------------------------

  function EndpointsAt(models: Models, id: string): Option<seq<string>> {
    if id in models then models[id].endpoints else None
  }

  /** The registration is of this id and brings at least one endpoint. */
  predicate Brings(r: Registration, id: string, lower: Lower) {
    r.id != "" && lower(r.id) == id && exists i | 0 <= i < |r.endpoints| :: r.endpoints[i] != ""
  }

  lemma AddEndpoints(existing: Models, r: Registration, lower: Lower, id: string)
    ensures EndpointsAt(Add(existing, r, lower), id) == if Brings(r, id, lower) then Some(Clean(r.endpoints)) else EndpointsAt(existing, id)
  {
    var clean := Clean(r.endpoints);
    CleanIsClean(r.endpoints);
    assert (exists i | 0 <= i < |r.endpoints| :: r.endpoints[i] != "") <==> clean != [] by {
      if i :| 0 <= i < |r.endpoints| && r.endpoints[i] != "" { assert r.endpoints[i] in clean; }
      if clean != [] { assert clean[0] in clean && clean[0] in r.endpoints; }
    }
  }

  /** Among several registrations of an id the last one that brings endpoints counts; registrations that
    * bring none keep what was recorded before. */
  lemma {:induction false} LastEndpointsCount(existing: Models, models: seq<Registration>, n: nat, lower: Lower, id: string, i: nat)
    requires i < n <= |models| && Brings(models[i], id, lower) && forall j | i < j < n :: !Brings(models[j], id, lower)
    ensures EndpointsAt(AddFirst(existing, models, n, lower), id) == Some(Clean(models[i].endpoints))
  {
    hide Add, Brings, Clean, EndpointsAt;
    if i < n - 1 { LastEndpointsCount(existing, models, n - 1, lower, id, i); }
    AddEndpoints(AddFirst(existing, models, n - 1, lower), models[n - 1], lower, id);
  }

  lemma {:induction false} EndpointsAreKept(existing: Models, models: seq<Registration>, n: nat, lower: Lower, id: string)
    requires n <= |models| && forall j | 0 <= j < n :: !Brings(models[j], id, lower)
    ensures EndpointsAt(AddFirst(existing, models, n, lower), id) == EndpointsAt(existing, id)
  {
    hide Add, Brings, Clean, EndpointsAt;
    if n > 0 {
      EndpointsAreKept(existing, models, n - 1, lower, id);
      AddEndpoints(AddFirst(existing, models, n - 1, lower), models[n - 1], lower, id);
    }
  }

  /** The endpoints kept stand in the order in which they were first seen. */
  lemma {:induction false} CleanKeepsOrder(a: seq<string>, b: seq<string>)
    ensures Clean(a) <= Clean(a + b)
    decreases |b|
  {
    if b == [] {
      assert a + b == a;
    } else {
      assert (a + b)[..|a + b| - 1] == a + b[..|b| - 1];
      CleanKeepsOrder(a, b[..|b| - 1]);
    }
  }

  // ----- the key-ordered pages ----------------------------------------------------------------------------------

  /** A row with cached models; `cached` is None when the column holds no array. */
  datatype Row = Row(id: int, provider: string, cached: Option<seq<Registration>>)

  ghost predicate Sorted(table: seq<Row>) {
    forall i, j | 0 <= i < j < |table| :: table[i].id < table[j].id
  }

  predicate AfterCursor(row: Row, cursor: Option<int>) {
    cursor.None? || row.id > cursor.value
  }

  /** The rows after the cursor, in order. */
  function Rest(table: seq<Row>, cursor: Option<int>): seq<Row> {
    if table == [] then []
    else if AfterCursor(table[0], cursor) then [table[0]] + Rest(table[1..], cursor)
    else Rest(table[1..], cursor)
  }

  /** ORDER BY id LIMIT 500 over the rows after the cursor. */
  function Page(table: seq<Row>, cursor: Option<int>): seq<Row> {
    var rest := Rest(table, cursor);
    if |rest| <= CACHE_LOAD_BATCH_SIZE then rest else rest[..CACHE_LOAD_BATCH_SIZE]
  }

  lemma {:induction false} RestIsSuffix(table: seq<Row>, n: nat)
    requires Sorted(table) && n <= |table|
    ensures Rest(table, if n == 0 then None else Some(table[n - 1].id)) == table[n..]
  {
    var cursor := if n == 0 then None else Some(table[n - 1].id);
    if table != [] {
      if n == 0 {
        RestIsSuffix(table[1..], 0);
        assert table == [table[0]] + table[1..];
      } else {
        assert n == 1 || table[0].id < table[n - 1].id;
        if n == 1 { RestAboveAll(table[1..], cursor); } else { RestIsSuffix(table[1..], n - 1); }
      }
    }
  }

  lemma {:induction false} RestAboveAll(table: seq<Row>, cursor: Option<int>)
    requires forall i | 0 <= i < |table| :: AfterCursor(table[i], cursor)
    ensures Rest(table, cursor) == table
  {
    if table != [] {
      assert AfterCursor(table[0], cursor);
      RestAboveAll(table[1..], cursor);
    }
  }

  function CachedModels(row: Row): seq<Registration> {
    row.cached.GetOr([])
  }

  /** One row registers its cached models. */
  function StageRow(staged: Registry, row: Row, lower: Lower): Registry {
    Registered(staged, row.provider, CachedModels(row), lower)
  }

  /** One pass over the first `n` rows, in order. */
  function StageFirst(staged: Registry, rows: seq<Row>, n: nat, lower: Lower): Registry
    requires n <= |rows|
  {
    if n == 0 then staged else StageRow(StageFirst(staged, rows, n - 1, lower), rows[n - 1], lower)
  }

  function Stage(staged: Registry, rows: seq<Row>, lower: Lower): Registry {
    StageFirst(staged, rows, |rows|, lower)
  }

  /** Staging a slice on top of the rows before it. */
  lemma {:induction false} StageSlice(table: seq<Row>, n: nat, page: seq<Row>, m: nat, lower: Lower)
    requires n + |page| <= |table| && m <= |page| && page == table[n..n + |page|]
    ensures StageFirst(StageFirst(map[], table, n, lower), page, m, lower) == StageFirst(map[], table, n + m, lower)
  {
    hide StageRow;
    if m > 0 { StageSlice(table, n, page, m - 1, lower); }
  }

  /** The first `n` models, without those that have no id. */
  function WithIds(models: seq<Registration>, n: nat): seq<Registration>
    requires n <= |models|
  {
    if n == 0 then []
    else if models[n - 1].id != "" then WithIds(models, n - 1) + [models[n - 1]]
    else WithIds(models, n - 1)
  }

  lemma {:induction false} AddPrefix(existing: Models, a: seq<Registration>, b: seq<Registration>, n: nat, lower: Lower)
    requires a <= b && n <= |a|
    ensures AddFirst(existing, a, n, lower) == AddFirst(existing, b, n, lower)
  {
    if n > 0 { AddPrefix(existing, a, b, n - 1, lower); }
  }

  lemma AddOneMore(existing: Models, models: seq<Registration>, last: Registration, lower: Lower)
    ensures AddAll(existing, models + [last], lower) == Add(AddAll(existing, models, lower), last, lower)
  {
    hide Add;
    AddPrefix(existing, models, models + [last], |models|, lower);
  }

  /** Leaving out the models without an id before registering changes nothing. */
  lemma {:induction false} FilterIsRedundant(existing: Models, models: seq<Registration>, n: nat, lower: Lower)
    requires n <= |models|
    ensures AddAll(existing, WithIds(models, n), lower) == AddFirst(existing, models, n, lower)
  {
    if n > 0 {
      FilterIsRedundant(existing, models, n - 1, lower);
      AddOneMore(existing, WithIds(models, n - 1), models[n - 1], lower);
      assert models[n - 1].id == "" ==> ToRegistryEntry(models[n - 1], lower).None?;
    }
  }

  /** A provider recorded with nothing under it never arises, so a row without models stages nothing. */
  method StageOneRow(before: Registry, row: Row, lower: Lower) returns (staged: Registry)
    requires NoEmptyProvider(before)
    ensures staged == StageRow(before, row, lower) && NoEmptyProvider(staged)
  {
    staged := before;
    if row.cached.None? { return; }
    var all := row.cached.value;
    var models := WithIds(all, |all|);
    FilterIsRedundant(ModelsOf(before, lower(row.provider)), all, |all|, lower);
    if |models| > 0 {
      staged := RegisterInto(staged, row.provider, models, lower);
    }
  }

  method StagePage(before: Registry, page: seq<Row>, lower: Lower) returns (staged: Registry)
    requires NoEmptyProvider(before)
    ensures staged == Stage(before, page, lower) && NoEmptyProvider(staged)
  {
    staged := before;
    var i := 0;
    while i < |page|
      invariant i <= |page| && staged == StageFirst(before, page, i, lower) && NoEmptyProvider(staged)
    {
      staged := StageOneRow(staged, page[i], lower);
      i := i + 1;
    }
  }

  function CursorAt(table: seq<Row>, n: nat): Option<int>
    requires n <= |table|
  {
    if n == 0 then None else Some(table[n - 1].id)
  }

  lemma PageOfSuffix(table: seq<Row>, n: nat)
    requires n <= |table| && Rest(table, CursorAt(table, n)) == table[n..]
    ensures var page := Page(table, CursorAt(table, n));
      n + |page| <= |table| && page == table[n..n + |page|] && (|page| < CACHE_LOAD_BATCH_SIZE ==> n + |page| == |table|)
  {
    assert forall m: nat | m <= |table| - n :: table[n..][..m] == table[n..n + m];
  }

  /** The page after the first `n` rows is the next slice of the table; a short page is the last. */
  lemma PageIsSlice(table: seq<Row>, n: nat)
    requires Sorted(table) && n <= |table|
    ensures var page := Page(table, CursorAt(table, n));
      && n + |page| <= |table| && page == table[n..n + |page|]
      && (|page| < CACHE_LOAD_BATCH_SIZE ==> n + |page| == |table|)
      && (|page| > 0 ==> CursorAt(table, n + |page|) == Some(page[|page| - 1].id))
  {
    RestIsSuffix(table, n);
    PageOfSuffix(table, n);
  }

  /** The query behind one page. */
  method FetchTablePage(table: seq<Row>, cursor: Option<int>, ghost n: nat) returns (page: seq<Row>)
    requires Sorted(table) && n <= |table| && cursor == CursorAt(table, n)
    ensures page == Page(table, cursor)
    ensures n + |page| <= |table| && page == table[n..n + |page|]
    ensures |page| < CACHE_LOAD_BATCH_SIZE ==> n + |page| == |table|
    ensures |page| > 0 ==> CursorAt(table, n + |page|) == Some(page[|page| - 1].id)
  {
    PageIsSlice(table, n);
    page := Page(table, cursor);
  }

  /** The paging loop ends, visits every row exactly once, in order, and stages what one pass over
    * the whole table would. */
  method LoadPages(table: seq<Row>, lower: Lower) returns (staged: Registry, visited: seq<Row>)
    requires Sorted(table)
    ensures visited == table
    ensures staged == Stage(map[], table, lower)
  {
    hide StageRow;
    staged, visited := map[], [];
    var cursor: Option<int> := None;
    ghost var n := 0;
    while true
      invariant n <= |table| && visited == table[..n]
      invariant cursor == CursorAt(table, n)
      invariant staged == StageFirst(map[], table, n, lower) && NoEmptyProvider(staged)
      decreases |table| - n
    {
      var page := FetchTablePage(table, cursor, n);
      if |page| == 0 { break; }
      StageSlice(table, n, page, |page|, lower);
      staged := StagePage(staged, page, lower);
      visited := visited + page;
      n := n + |page|;
      if |page| < CACHE_LOAD_BATCH_SIZE { break; }
      cursor := Some(page[|page| - 1].id);
    }
    assert table[..n] == table;
  }

  // ----- publishing --------------------------------------------------------------------------------------------

  /** A staged entry registers as itself. */
  ghost predicate Settled(id: string, entry: Entry, lower: Lower) {
    id != "" && lower(id) == id && entry.id == id
    && (entry.endpoints.Some? ==> entry.endpoints.value != [] && IsClean(entry.endpoints.value))
  }

  ghost predicate SettledModels(models: Models, lower: Lower) {
    forall id | id in models :: Settled(id, models[id], lower)
  }

  ghost predicate SettledRegistry(registry: Registry, lower: Lower) {
    forall key | key in registry :: lower(key) == key && registry[key] != map[] && SettledModels(registry[key], lower)
  }

  function AsRegistration(entry: Entry): Registration {
    Registration(entry.id, entry.endpoints.GetOr([]))
  }

  /** What registering the staged models on top of the live ones gives, whatever their order. */
  function Over(live: Models, staged: Models): Models {
    map id | id in live.Keys + staged.Keys :: if id in staged then Merged(live, staged[id]) else live[id]
  }

  function Published(live: Registry, staged: Registry): Registry {
    map key | key in live.Keys + staged.Keys ::
      if key in staged then Over(ModelsOf(live, key), staged[key]) else live[key]
  }

  lemma SettledRegistersAsItself(id: string, entry: Entry, lower: Lower)
    requires Settled(id, entry, lower)
    ensures ToRegistryEntry(AsRegistration(entry), lower) == Some(entry)
  {
    if entry.endpoints.Some? { CleanKeepsClean(entry.endpoints.value); }
  }

  function Less<V>(m: map<string, V>, keys: set<string>): map<string, V> {
    map key | key in m && key !in keys :: m[key]
  }

  lemma LessOne<V>(m: map<string, V>, keys: set<string>, key: string)
    requires key in keys && keys <= m.Keys
    ensures Less(m, keys)[key := m[key]] == Less(m, keys - {key})
  {
  }

  lemma OverOne(live: Models, staged: Models, id: string, entry: Entry)
    requires id !in staged && entry.id == id
    ensures Over(live, staged)[id := Merged(Over(live, staged), entry)] == Over(live, staged[id := entry])
  {
  }

  /** The loop of `loadFromCache` that merges the staged models of one provider. */
  method PublishModels(live: Models, staged: Models, lower: Lower) returns (r: Models)
    requires SettledModels(staged, lower)
    ensures r == Over(live, staged)
  {
    r := live;
    var ids := staged.Keys;
    while ids != {}
      invariant ids <= staged.Keys
      invariant r == Over(live, Less(staged, ids))
    {
      var id :| id in ids;
      assert Settled(id, staged[id], lower);
      OverOne(live, Less(staged, ids), id, staged[id]);
      LessOne(staged, ids, id);
      ids := ids - {id};
      SettledRegistersAsItself(id, staged[id], lower);
      var entry := ToRegistryEntry(AsRegistration(staged[id]), lower).value;
      r := r[entry.id := Merged(r, entry)];
    }
    assert Less(staged, ids) == staged;
  }

  lemma NotYetPublished(live: Registry, staged: Registry, keys: set<string>, key: string)
    requires key in keys
    ensures ModelsOf(Published(live, Less(staged, keys)), key) == ModelsOf(live, key)
  {
  }

  lemma PublishOne(live: Registry, staged: Registry, key: string, models: Models)
    requires key !in staged
    ensures Published(live, staged)[key := Over(ModelsOf(live, key), models)] == Published(live, staged[key := models])
  {
    hide Over;
  }

  /** After publishing, a cached model has the endpoints it was cached with, or, if it was cached without,
    * those of its live registration; a model that is not cached keeps its own. */
  lemma PublishedEndpoints(live: Registry, staged: Registry, key: string, id: string)
    requires forall k | k in staged :: forall i | i in staged[k] :: staged[k][i].id == i
    ensures var cached := EndpointsAt(ModelsOf(staged, key), id);
      EndpointsAt(ModelsOf(Published(live, staged), key), id) == if cached.Some? then cached else EndpointsAt(ModelsOf(live, key), id)
  {
  }

  class ProviderModelRegistryService {
    const lower: Lower
    var registry: Registry

    constructor (lower: Lower)
      ensures this.lower == lower && registry == map[]
    {
      this.lower := lower;
      registry := map[];
    }

    method RegisterModels(providerId: string, models: seq<Registration>)
      modifies this
      ensures registry == Registered(old(registry), providerId, models, lower)
    {
      registry := RegisterInto(registry, providerId, models, lower);
    }

    /** The merge at the end of the load: one uninterrupted stretch. */
    method Publish(staged: Registry)
      requires SettledRegistry(staged, lower)
      modifies this
      ensures registry == Published(old(registry), staged)
    {
      var keys := staged.Keys;
      while keys != {}
        invariant keys <= staged.Keys
        invariant registry == Published(old(registry), Less(staged, keys))
      {
        var key :| key in keys;
        NotYetPublished(old(registry), staged, keys, key);
        PublishOne(old(registry), Less(staged, keys), key, staged[key]);
        LessOne(staged, keys, key);
        keys := keys - {key};
        assert SettledModels(staged[key], lower);
        var models := PublishModels(if key in registry then registry[key] else map[], staged[key], lower);
        registry := registry[key := models];
      }
      assert Less(staged, keys) == staged;
    }

    /** Some(true) for a confirmed model, Some(false) for an unconfirmed one of a known provider. */
    method IsModelConfirmed(providerId: string, modelId: string) returns (r: Option<bool>)
      ensures r == Confirmed(registry, lower(providerId), lower(modelId))
    {
      var key := lower(providerId);
      if key !in registry { return None; }
      return Some(lower(modelId) in registry[key]);
    }
  }

  function Confirmed(registry: Registry, key: string, id: string): Option<bool> {
    if key in registry then Some(id in registry[key]) else None
  }

  lemma {:induction false} AddFirstSettled(existing: Models, models: seq<Registration>, n: nat, lower: Lower)
    requires Idempotent(lower) && SettledModels(existing, lower) && (forall s :: lower(s) == "" ==> s == "")
    requires n <= |models|
    ensures SettledModels(AddFirst(existing, models, n, lower), lower)
  {
    if n > 0 {
      AddFirstSettled(existing, models, n - 1, lower);
      CleanIsClean(models[n - 1].endpoints);
    }
  }

  /** What the load stages is always fit to be published. */
  lemma {:induction false} StageSettled(rows: seq<Row>, n: nat, lower: Lower)
    requires Idempotent(lower) && (forall s :: lower(s) == "" ==> s == "") && n <= |rows|
    ensures SettledRegistry(StageFirst(map[], rows, n, lower), lower)
  {
    if n > 0 {
      var before, row := StageFirst(map[], rows, n - 1, lower), rows[n - 1];
      StageSettled(rows, n - 1, lower);
      assert SettledModels(ModelsOf(before, lower(row.provider)), lower);
      AddFirstSettled(ModelsOf(before, lower(row.provider)), CachedModels(row), |CachedModels(row)|, lower);
    }
  }

  lemma PublishedIds(live: Registry, staged: Registry, key: string)
    ensures Ids(Published(live, staged), key) == Ids(live, key) + Ids(staged, key)
  {
  }

  // ----- registrations racing the load --------------------------------------------------------------------------

  /** `loaded` is None while the load is still paging. */
  datatype State = State(registry: Registry, cursor: Option<int>, staged: Registry, loading: bool, loaded: bool)

  const INITIAL := State(map[], None, map[], true, false)

  datatype Event =
    | Register(providerId: string, models: seq<Registration>)
    | FetchPage
    | LoadFails

  predicate Enabled(s: State, e: Event) {
    e.Register? || s.loading
  }

  /** A fetched page is staged; the last one is published in the same stretch. */
  function Next(table: seq<Row>, lower: Lower, s: State, e: Event): State {
    match e
    case Register(p, models) => s.(registry := Registered(s.registry, p, models, lower))
    case LoadFails => s.(loading := false)
    case FetchPage =>
      var page := Page(table, s.cursor);
      var staged := Stage(s.staged, page, lower);
      if |page| < CACHE_LOAD_BATCH_SIZE then
        s.(registry := Published(s.registry, staged), staged := staged, loading := false, loaded := true)
      else
        s.(staged := staged, cursor := Some(page[|page| - 1].id))
  }

  ghost predicate StepAt(table: seq<Row>, lower: Lower, states: seq<State>, events: seq<Event>, j: nat)
    requires |states| == |events| + 1 && j < |events|
  {
    Enabled(states[j], events[j]) && states[j + 1] == Next(table, lower, states[j], events[j])
  }

  ghost predicate Run(table: seq<Row>, lower: Lower, states: seq<State>, events: seq<Event>) {
    && |states| == |events| + 1
    && states[0] == INITIAL
    && forall j: nat | j < |events| :: StepAt(table, lower, states, events, j)
  }

  /** The ids registered live for a provider by the first `n` events. */
  function LiveIds(events: seq<Event>, n: nat, key: string, lower: Lower): set<string>
    requires n <= |events|
  {
    if n == 0 then {}
    else
      var e := events[n - 1];
      LiveIds(events, n - 1, key, lower) + (if e.Register? && lower(e.providerId) == key then IdsOf(e.models, lower) else {})
  }

  /** The ids the first `n` rows cache for a provider. */
  function CachedBy(rows: seq<Row>, n: nat, key: string, lower: Lower): set<string>
    requires n <= |rows|
  {
    if n == 0 then {}
    else
      var row := rows[n - 1];
      CachedBy(rows, n - 1, key, lower)
      + (if lower(row.provider) == key && row.cached.Some? then IdsOf(row.cached.value, lower) else {})
  }

  /** The ids the whole table caches for a provider. */
  function CachedIds(rows: seq<Row>, key: string, lower: Lower): set<string> {
    CachedBy(rows, |rows|, key, lower)
  }

  lemma StageRowIds(before: Registry, row: Row, lower: Lower, key: string)
    ensures Ids(StageRow(before, row, lower), key) ==
      Ids(before, key) + (if lower(row.provider) == key && row.cached.Some? then IdsOf(row.cached.value, lower) else {})
  {
    RegisteredIds(before, row.provider, CachedModels(row), lower, key);
  }

  lemma {:induction false} StagedIds(rows: seq<Row>, n: nat, lower: Lower, key: string)
    requires n <= |rows|
    ensures Ids(StageFirst(map[], rows, n, lower), key) == CachedBy(rows, n, key, lower)
  {
    if n > 0 {
      StagedIds(rows, n - 1, lower, key);
      StageRowIds(StageFirst(map[], rows, n - 1, lower), rows[n - 1], lower, key);
    }
  }

  /** How far the load has read. */
  ghost predicate Read(table: seq<Row>, lower: Lower, s: State, n: nat) {
    && n <= |table|
    && s.cursor == CursorAt(table, n)
    && s.staged == StageFirst(map[], table, n, lower)
  }

  ghost predicate Faithful(table: seq<Row>, lower: Lower, s: State, events: seq<Event>, n: nat, key: string)
    requires n <= |events|
  {
    Ids(s.registry, key) == LiveIds(events, n, key, lower) + (if s.loaded then CachedIds(table, key, lower) else {})
  }

  lemma FetchStep(table: seq<Row>, lower: Lower, s: State, n: nat) returns (m: nat)
    requires Sorted(table) && Read(table, lower, s, n) && s.loading && !s.loaded
    ensures var t := Next(table, lower, s, FetchPage);
      && (t.loading ==> Read(table, lower, t, m) && !t.loaded && t.registry == s.registry)
      && (!t.loading ==> t.loaded && t.registry == Published(s.registry, Stage(map[], table, lower)))
  {
    hide StageRow, Published, Page, Sorted;
    PageIsSlice(table, n);
    StageSlice(table, n, Page(table, s.cursor), |Page(table, s.cursor)|, lower);
    m := n + |Page(table, s.cursor)|;
  }

  lemma {:induction false} RunInvariant(table: seq<Row>, lower: Lower, states: seq<State>, events: seq<Event>, j: nat) returns (n: nat)
    requires Sorted(table) && Run(table, lower, states, events) && j < |states|
    ensures states[j].loading ==> Read(table, lower, states[j], n) && !states[j].loaded
    ensures forall key :: Faithful(table, lower, states[j], events, j, key)
  {
    n := 0;
    if j > 0 {
      n := RunInvariant(table, lower, states, events, j - 1);
      assert StepAt(table, lower, states, events, j - 1);
      var s, t, e := states[j - 1], states[j], events[j - 1];
      if e.FetchPage? { n := FetchStep(table, lower, s, n); }
      forall key ensures Faithful(table, lower, t, events, j, key) {
        assert Faithful(table, lower, s, events, j - 1, key);
        if e.Register? {
          RegisteredIds(s.registry, e.providerId, e.models, lower, key);
        } else if e.FetchPage? {
          PublishedIds(s.registry, Stage(map[], table, lower), key);
          StagedIds(table, |table|, lower, key);
        }
      }
    }
  }

  /** In every reachable state a provider's ids are its live registrations alone, or those plus its
    * complete cached set: never a part of the cached set. */
  lemma NeverHalfLoaded(table: seq<Row>, lower: Lower, states: seq<State>, events: seq<Event>, j: nat, key: string)
    requires Sorted(table) && Run(table, lower, states, events) && j < |states|
    ensures Ids(states[j].registry, key) ==
            LiveIds(events, j, key, lower) + (if states[j].loaded then CachedIds(table, key, lower) else {})
  {
    var n := RunInvariant(table, lower, states, events, j);
    assert Faithful(table, lower, states[j], events, j, key);
  }

  /** A confirmed id is never lost. */
  lemma {:induction false} ConfirmedIdsStay(table: seq<Row>, lower: Lower, states: seq<State>, events: seq<Event>, i: nat, j: nat, key: string)
    requires Run(table, lower, states, events) && i <= j < |states|
    ensures Ids(states[i].registry, key) <= Ids(states[j].registry, key)
    decreases j
  {
    if i < j {
      ConfirmedIdsStay(table, lower, states, events, i, j - 1, key);
      assert StepAt(table, lower, states, events, j - 1);
      var s, e := states[j - 1], events[j - 1];
      if e.Register? { RegisteredIds(s.registry, e.providerId, e.models, lower, key); }
      if e.FetchPage? { PublishedIds(s.registry, Stage(s.staged, Page(table, s.cursor), lower), key); }
    }
  }

  lemma {:induction false} NoProviderIsEmpty(table: seq<Row>, lower: Lower, states: seq<State>, events: seq<Event>, j: nat)
    requires Run(table, lower, states, events) && j < |states|
    ensures NoEmptyProvider(states[j].registry) && NoEmptyProvider(states[j].staged)
  {
    if j > 0 {
      NoProviderIsEmpty(table, lower, states, events, j - 1);
      assert StepAt(table, lower, states, events, j - 1);
      var s, e := states[j - 1], events[j - 1];
      if e.Register? { RegisteredNoEmpty(s.registry, e.providerId, e.models, lower); }
      if e.FetchPage? {
        StageNoEmpty(s.staged, Page(table, s.cursor), |Page(table, s.cursor)|, lower);
        PublishedNoEmpty(s.registry, Stage(s.staged, Page(table, s.cursor), lower));
      }
    }
  }

  lemma RegisteredNoEmpty(registry: Registry, providerId: string, models: seq<Registration>, lower: Lower)
    requires NoEmptyProvider(registry)
    ensures NoEmptyProvider(Registered(registry, providerId, models, lower))
  {
  }

  lemma {:induction false} StageNoEmpty(staged: Registry, rows: seq<Row>, n: nat, lower: Lower)
    requires NoEmptyProvider(staged) && n <= |rows|
    ensures NoEmptyProvider(StageFirst(staged, rows, n, lower))
  {
    if n > 0 {
      var before, row := StageFirst(staged, rows, n - 1, lower), rows[n - 1];
      StageNoEmpty(staged, rows, n - 1, lower);
      RegisteredNoEmpty(before, row.provider, CachedModels(row), lower);
    }
  }

  lemma PublishedNoEmpty(live: Registry, staged: Registry)
    requires NoEmptyProvider(live) && NoEmptyProvider(staged)
    ensures NoEmptyProvider(Published(live, staged))
  {
    var r := Published(live, staged);
    forall key | key in r ensures r[key] != map[] {
      PublishedIds(live, staged, key);
      assert Ids(r, key) != {} by {
        if key in staged { var id :| id in staged[key]; assert id in Ids(r, key); }
        else { var id :| id in live[key]; assert id in Ids(r, key); }
      }
    }
  }

  /** A cached model is called unconfirmed only for a provider that has live registrations while the
    * load has not succeeded; for any other provider the answer is "no data" or "confirmed". */
  lemma CachedModelsAreNotPhantoms(table: seq<Row>, lower: Lower, states: seq<State>, events: seq<Event>, j: nat, key: string, id: string)
    requires Sorted(table) && Run(table, lower, states, events) && j < |states|
    requires id in CachedIds(table, key, lower)
    ensures Confirmed(states[j].registry, key, id) == Some(false) <==>
            !states[j].loaded && LiveIds(events, j, key, lower) != {} && id !in LiveIds(events, j, key, lower)
  {
    NeverHalfLoaded(table, lower, states, events, j, key);
    NoProviderIsEmpty(table, lower, states, events, j);
    var registry := states[j].registry;
    if key in registry { assert registry[key] != map[]; var k :| k in registry[key]; assert k in Ids(registry, key); }
  }
}
