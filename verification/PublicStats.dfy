/** The public per-provider token statistics: rows grouped into models, models into providers. */
module PublicStats {
  import opened Prelude
  import opened OrderedMaps

  const CUSTOM_PREFIX := "custom:"
  const CUSTOM_PROVIDER_LABEL := "Custom"
  const OTHER_CUSTOM_MODELS := "other-custom-models"
  const MIN_TENANTS_PER_CUSTOM_MODEL: nat := 10

  /** One aggregated row of the query, and one (model, tenant) pair of custom traffic. */
  datatype Row = Row(model: string, provider: Option<string>, date: string, tokens: int, authType: Option<string>, cost: Option<real>)
  datatype Pair = Pair(model: string, tenant: string)

  // ----- custom model names ---------------------------------------------------------------------------------

  predicate IsCustomModel(model: string) {
    CUSTOM_PREFIX <= model
  }

  function SlashAt(s: string): (r: Option<nat>)
    ensures r.Some? ==> r.value < |s| && s[r.value] == '/' && '/' !in s[..r.value]
    ensures r.None? ==> '/' !in s
  {
    if s == "" then None
    else if s[0] == '/' then Some(0)
    else
      var r := SlashAt(s[1..]);
      if r.None? then None
      else
        assert s[..r.value + 1] == [s[0]] + s[1..][..r.value];
        Some(r.value + 1)
  }

  /** Drops `custom:<id>/`; the id is a non-empty run without slashes. */
  function StripReference(model: string): string {
    if !IsCustomModel(model) then model
    else
      var slash := SlashAt(model[|CUSTOM_PREFIX|..]);
      if slash.Some? && slash.value > 0 then model[|CUSTOM_PREFIX| + slash.value + 1..] else model
  }

  function ScrubCustomModel(model: string): string {
    var scrubbed := StripReference(model);
    if IsCustomModel(scrubbed) then OTHER_CUSTOM_MODELS else scrubbed
  }

  /** `custom:<id>/<name>` is published as `<name>` and nothing of the id survives, unless the name
    * itself looks like a reference. */
  lemma ScrubDropsTheProviderId(id: string, name: string)
    requires id != "" && '/' !in id
    ensures ScrubCustomModel(CUSTOM_PREFIX + id + "/" + name) == if IsCustomModel(name) then OTHER_CUSTOM_MODELS else name
  {
    var model := CUSTOM_PREFIX + id + "/" + name;
    var rest := model[|CUSTOM_PREFIX|..];
    assert rest == id + "/" + name;
    assert rest[|id|] == '/';
    var slash := SlashAt(rest).value;
    assert rest[..|id|] == id;
    PrefixHas(rest, slash, |id|);
    PrefixHas(rest, |id|, slash);
    assert model[|CUSTOM_PREFIX| + slash + 1..] == name;
  }

  /** A model without the prefix keeps its name; a reference without an id or without a name part goes to
    * the common bucket. */
  lemma OthersScrub(model: string)
    ensures !IsCustomModel(model) ==> ScrubCustomModel(model) == model
    ensures IsCustomModel(model) && '/' !in model ==> ScrubCustomModel(model) == OTHER_CUSTOM_MODELS
    ensures "custom:/" <= model ==> ScrubCustomModel(model) == OTHER_CUSTOM_MODELS
  {
    if IsCustomModel(model) {
      var rest := model[|CUSTOM_PREFIX|..];
      assert '/' !in model ==> SlashAt(rest).None? by {
        if SlashAt(rest).Some? { assert model[|CUSTOM_PREFIX| + SlashAt(rest).value] == '/'; }
      }
      if "custom:/" <= model { assert rest[0] == model[7] == "custom:/"[7] == '/'; }
    }
  }

  lemma ScrubbedIsNoReference(model: string)
    ensures !IsCustomModel(ScrubCustomModel(model))
  {
    hide StripReference;
    assert OTHER_CUSTOM_MODELS[0] == 'o' && CUSTOM_PREFIX[0] == 'c';
  }

  /** The distinct tenants whose custom traffic scrubs to `name`. */
  function Tenants(pairs: seq<Pair>, name: string): set<string> {
    if pairs == [] then {}
    else
      var last := pairs[|pairs| - 1];
      Tenants(pairs[..|pairs| - 1], name) + (if ScrubCustomModel(last.model) == name then {last.tenant} else {})
  }

  lemma {:induction false} TenantsMeaning(pairs: seq<Pair>, name: string, t: string)
    ensures t in Tenants(pairs, name) <==> exists p | p in pairs :: ScrubCustomModel(p.model) == name && p.tenant == t
  {
    if pairs != [] {
      var front, last := pairs[..|pairs| - 1], pairs[|pairs| - 1];
      TenantsMeaning(front, name, t);
      assert pairs == front + [last];
    }
  }

  predicate Publishable(pairs: seq<Pair>, name: string) {
    |Tenants(pairs, name)| >= MIN_TENANTS_PER_CUSTOM_MODEL
  }

  /** The scrubbed names that at least ten distinct tenants back. */
  function PublishableNames(pairs: seq<Pair>): set<string> {
    set i | 0 <= i < |pairs| && Publishable(pairs, ScrubCustomModel(pairs[i].model)) :: ScrubCustomModel(pairs[i].model)
  }

  lemma PublishableNamesMeaning(pairs: seq<Pair>, name: string)
    ensures name in PublishableNames(pairs) <==> Publishable(pairs, name)
  {
    if Publishable(pairs, name) {
      assert Tenants(pairs, name) != {};
      var t :| t in Tenants(pairs, name);
      TenantsMeaning(pairs, name, t);
    }
  }

  /** Every name with tenants, and its tenants. */
  ghost predicate Collected(m: map<string, set<string>>, pairs: seq<Pair>) {
    forall name :: (name in m <==> Tenants(pairs, name) != {}) && (name in m ==> m[name] == Tenants(pairs, name))
  }

  lemma CollectOne(m: map<string, set<string>>, pairs: seq<Pair>, i: nat)
    requires i < |pairs| && Collected(m, pairs[..i])
    ensures var name := ScrubCustomModel(pairs[i].model);
      Collected(m[name := (if name in m then m[name] else {}) + {pairs[i].tenant}], pairs[..i + 1])
  {
    assert pairs[..i + 1][..i] == pairs[..i] && pairs[..i + 1][i] == pairs[i];
  }

  method CollectTenants(pairs: seq<Pair>) returns (tenantsByModel: map<string, set<string>>)
    ensures Collected(tenantsByModel, pairs)
  {
    tenantsByModel := map[];
    var i := 0;
    while i < |pairs|
      invariant i <= |pairs| && Collected(tenantsByModel, pairs[..i])
    {
      CollectOne(tenantsByModel, pairs, i);
      var scrubbed := ScrubCustomModel(pairs[i].model);
      var tenants := if scrubbed in tenantsByModel then tenantsByModel[scrubbed] else {};
      tenantsByModel := tenantsByModel[scrubbed := tenants + {pairs[i].tenant}];
      i := i + 1;
    }
    assert pairs[..i] == pairs;
  }

  method PublishableCustomModels(pairs: seq<Pair>) returns (publishable: set<string>)
    ensures publishable == PublishableNames(pairs)
  {
    hide PublishableNames, Tenants;
    forall name ensures name in PublishableNames(pairs) <==> Publishable(pairs, name) {
      PublishableNamesMeaning(pairs, name);
    }
    var tenantsByModel := CollectTenants(pairs);
    publishable := {};
    var names := tenantsByModel.Keys;
    while names != {}
      invariant names <= tenantsByModel.Keys
      invariant forall name :: name in publishable <==> name in tenantsByModel && name !in names && Publishable(pairs, name)
    {
      var name :| name in names;
      names := names - {name};
      if |tenantsByModel[name]| >= MIN_TENANTS_PER_CUSTOM_MODEL {
        publishable := publishable + {name};
      }
    }
  }

  // ----- rows into models -----------------------------------------------------------------------------------

  /** Who a row is published for. `publicProvider` resolves a catalog model's provider, or gives none. */
  datatype Label = Label(provider: string, model: string)

  type Resolver = (string, Option<string>) -> Option<string>

  function LabelOf(row: Row, publishable: set<string>, publicProvider: Resolver): Option<Label> {
    if IsCustomModel(row.model) then
      var scrubbed := ScrubCustomModel(row.model);
      Some(Label(CUSTOM_PROVIDER_LABEL, if scrubbed in publishable then scrubbed else OTHER_CUSTOM_MODELS))
    else
      var provider := publicProvider(row.model, row.provider);
      if provider.None? || provider.value == "" then None else Some(Label(provider.value, row.model))
  }

  /** A model of one provider and auth type, with its daily tokens. */
  datatype Entry = Entry(model: string, provider: string, authType: Option<string>, total: int, cost: Option<real>, daily: OrderedMap<int>)

  function KeyOf(who: Label, authType: Option<string>): string {
    who.provider + ":" + who.model + ":" + authType.GetOr("")
  }

  function AddCost(a: Option<real>, b: Option<real>): Option<real> {
    if b.None? then a else Some(a.GetOr(0.0) + b.value)
  }

  function WithRow(e: Entry, row: Row): Entry {
    e.(total := e.total + row.tokens, cost := AddCost(e.cost, row.cost),
       daily := Put(e.daily, row.date, Get(e.daily, row.date).GetOr(0) + row.tokens))
  }

  function NewEntry(who: Label, authType: Option<string>): Entry {
    Entry(who.model, who.provider, authType, 0, None, [])
  }

  type ModelMap = OrderedMap<Entry>

  function AddRow(models: ModelMap, row: Row, publishable: set<string>, publicProvider: Resolver): ModelMap {
    var who := LabelOf(row, publishable, publicProvider);
    if who.None? then models
    else
      var key := KeyOf(who.value, row.authType);
      Put(models, key, WithRow(Get(models, key).GetOr(NewEntry(who.value, row.authType)), row))
  }

  function Group(rows: seq<Row>, publishable: set<string>, publicProvider: Resolver): ModelMap {
    if rows == [] then []
    else AddRow(Group(rows[..|rows| - 1], publishable, publicProvider), rows[|rows| - 1], publishable, publicProvider)
  }

  /** The body of the loop over the rows. */
  method GroupRow(before: ModelMap, r: Row, publishable: set<string>, publicProvider: Resolver) returns (models: ModelMap)
    ensures models == AddRow(before, r, publishable, publicProvider)
  {
    hide Put, Get, IsCustomModel, ScrubCustomModel;
    models := before;
    var modelName, provider := r.model, CUSTOM_PROVIDER_LABEL;
    if IsCustomModel(modelName) {
      var scrubbed := ScrubCustomModel(modelName);
      modelName := if scrubbed in publishable then scrubbed else OTHER_CUSTOM_MODELS;
    } else {
      var public := publicProvider(modelName, r.provider);
      if public.None? || public.value == "" { return; }
      provider := public.value;
    }
    var key := provider + ":" + modelName + ":" + r.authType.GetOr("");
    var entry := Get(models, key).GetOr(Entry(modelName, provider, r.authType, 0, None, []));
    entry := entry.(total := entry.total + r.tokens);
    if r.cost.Some? {
      entry := entry.(cost := Some(entry.cost.GetOr(0.0) + r.cost.value));
    }
    entry := entry.(daily := Put(entry.daily, r.date, Get(entry.daily, r.date).GetOr(0) + r.tokens));
    models := Put(models, key, entry);
  }

  method GroupRows(rows: seq<Row>, publishable: set<string>, publicProvider: Resolver) returns (models: ModelMap)
    ensures models == Group(rows, publishable, publicProvider)
  {
    models := [];
    var i := 0;
    while i < |rows|
      invariant i <= |rows| && models == Group(rows[..i], publishable, publicProvider)
    {
      assert rows[..i + 1][..i] == rows[..i];
      models := GroupRow(models, rows[i], publishable, publicProvider);
      i := i + 1;
    }
    assert rows[..i] == rows;
  }

  // ----- models into providers ---------------------------------------------------------------------------------

  /** What a model without a recorded auth type is counted as. */
  const DEFAULT_AUTH := "api_key"

  datatype Auth = Auth(total: int, modelCount: nat)
  datatype Provider = Provider(total: int, models: seq<Entry>, authTotals: OrderedMap<Auth>)

  type ProviderMap = OrderedMap<Provider>

  function AuthKey(e: Entry): string {
    e.authType.GetOr(DEFAULT_AUTH)
  }

  function WithEntry(p: Provider, e: Entry): Provider {
    var auth := Get(p.authTotals, AuthKey(e)).GetOr(Auth(0, 0));
    Provider(p.total + e.total, p.models + [e],
             Put(p.authTotals, AuthKey(e), Auth(auth.total + e.total, auth.modelCount + (if e.total > 0 then 1 else 0))))
  }

  function AddEntry(providers: ProviderMap, e: Entry): ProviderMap {
    Put(providers, e.provider, WithEntry(Get(providers, e.provider).GetOr(Provider(0, [], [])), e))
  }

  function Providers(models: ModelMap): ProviderMap {
    if models == [] then [] else AddEntry(Providers(models[..|models| - 1]), models[|models| - 1].value)
  }

  /** The body of the loop over the models. */
  method GroupModel(before: ProviderMap, entry: Entry) returns (providers: ProviderMap)
    ensures providers == AddEntry(before, entry)
  {
    var prov := Get(before, entry.provider).GetOr(Provider(0, [], []));
    prov := prov.(total := prov.total + entry.total, models := prov.models + [entry]);
    var authKey := if entry.authType.Some? then entry.authType.value else DEFAULT_AUTH;
    var auth := Get(prov.authTotals, authKey).GetOr(Auth(0, 0));
    auth := auth.(total := auth.total + entry.total);
    if entry.total > 0 { auth := auth.(modelCount := auth.modelCount + 1); }
    prov := prov.(authTotals := Put(prov.authTotals, authKey, auth));
    providers := Put(before, entry.provider, prov);
  }

  method GroupModels(models: ModelMap) returns (providers: ProviderMap)
    ensures providers == Providers(models)
  {
    providers := [];
    var i := 0;
    while i < |models|
      invariant i <= |models| && providers == Providers(models[..i])
    {
      assert models[..i + 1][..i] == models[..i];
      providers := GroupModel(providers, models[i].value);
      i := i + 1;
    }
    assert models[..i] == models;
  }

  method GetProviderDailyTokens(rows: seq<Row>, customPairs: seq<Pair>, publicProvider: Resolver)
    returns (providers: ProviderMap)
    ensures providers == Providers(Group(rows, PublishableNames(customPairs), publicProvider))
  {
    var names := PublishableCustomModels(customPairs);
    var models := GroupRows(rows, names, publicProvider);
    providers := GroupModels(models);
  }

  // ----- nothing is lost ---------------------------------------------------------------------------------------

  /** The tokens of the rows that pass `keep`. */
  function Tokens(rows: seq<Row>, keep: Row -> bool): int {
    if rows == [] then 0
    else Tokens(rows[..|rows| - 1], keep) + (if keep(rows[|rows| - 1]) then rows[|rows| - 1].tokens else 0)
  }

  function EntryTotal(): Entry -> int { (e: Entry) => e.total }

  function DayTokens(): int -> int { (x: int) => x }

  function DailyTotal(e: Entry): int { Sum(e.daily, DayTokens()) }

  lemma {:induction false} GroupConserves(rows: seq<Row>, publishable: set<string>, publicProvider: Resolver)
    ensures Sum(Group(rows, publishable, publicProvider), EntryTotal()) ==
            Tokens(rows, (r: Row) => LabelOf(r, publishable, publicProvider).Some?)
  {
    if rows != [] {
      var front, r := rows[..|rows| - 1], rows[|rows| - 1];
      GroupConserves(front, publishable, publicProvider);
      var models, who := Group(front, publishable, publicProvider), LabelOf(r, publishable, publicProvider);
      if who.Some? {
        var key := KeyOf(who.value, r.authType);
        SumPut(models, key, WithRow(Get(models, key).GetOr(NewEntry(who.value, r.authType)), r), EntryTotal());
      }
    }
  }

  ghost predicate DailyAddsUp(models: ModelMap) {
    forall x | x in models :: x.value.total == DailyTotal(x.value)
  }

  lemma WithRowDaily(e: Entry, r: Row)
    ensures DailyTotal(WithRow(e, r)) == DailyTotal(e) + r.tokens
  {
    SumPut(e.daily, r.date, Get(e.daily, r.date).GetOr(0) + r.tokens, DayTokens());
  }

  lemma {:induction false} GroupDailyAddsUp(rows: seq<Row>, publishable: set<string>, publicProvider: Resolver)
    ensures DailyAddsUp(Group(rows, publishable, publicProvider))
  {
    if rows != [] {
      var front, r := rows[..|rows| - 1], rows[|rows| - 1];
      GroupDailyAddsUp(front, publishable, publicProvider);
      var models, who := Group(front, publishable, publicProvider), LabelOf(r, publishable, publicProvider);
      if who.Some? {
        var key := KeyOf(who.value, r.authType);
        var e := Get(models, key).GetOr(NewEntry(who.value, r.authType));
        WithRowDaily(e, r);
        if HasKey(models, key) { assert models[IndexOf(models, key)] in models; }
        forall x | x in Put(models, key, WithRow(e, r)) ensures x.value.total == DailyTotal(x.value) {
          PutSlots(models, key, WithRow(e, r), x);
        }
      }
    }
  }

  // ----- each entry and each of its days -------------------------------------------------------------------------

  /** The rows that are published under the key, on the date if one is given. */
  function KeyedRows(publishable: set<string>, publicProvider: Resolver, key: string, date: Option<string>): Row -> bool {
    (r: Row) =>
      var who := LabelOf(r, publishable, publicProvider);
      who.Some? && KeyOf(who.value, r.authType) == key && (date.None? || r.date == date.value)
  }

  function TotalUnder(models: ModelMap, key: string): int {
    var e := Get(models, key);
    if e.Some? then e.value.total else 0
  }

  function DayUnder(models: ModelMap, key: string, date: string): int {
    var e := Get(models, key);
    if e.Some? then Get(e.value.daily, date).GetOr(0) else 0
  }

  ghost predicate UniqueDays(models: ModelMap, key: string) {
    var e := Get(models, key);
    e.Some? ==> UniqueKeys(e.value.daily)
  }

  lemma WithRowExact(e: Entry, r: Row, date: string)
    requires UniqueKeys(e.daily)
    ensures UniqueKeys(WithRow(e, r).daily)
    ensures Get(WithRow(e, r).daily, date).GetOr(0) == Get(e.daily, date).GetOr(0) + (if r.date == date then r.tokens else 0)
  {
    var tokens := Get(e.daily, r.date).GetOr(0) + r.tokens;
    PutKeepsUnique(e.daily, r.date, tokens);
    GetPut(e.daily, r.date, tokens, date);
  }

  /** Every entry's total, and every day's share of it, is the tokens of exactly the rows that are
    * published under its key. */
  lemma {:induction false} EntriesAreExact(rows: seq<Row>, publishable: set<string>, publicProvider: Resolver, key: string, date: string)
    ensures var models := Group(rows, publishable, publicProvider);
      && UniqueKeys(models) && UniqueDays(models, key)
      && TotalUnder(models, key) == Tokens(rows, KeyedRows(publishable, publicProvider, key, None))
      && DayUnder(models, key, date) == Tokens(rows, KeyedRows(publishable, publicProvider, key, Some(date)))
  {
    if rows != [] {
      hide UniqueKeys, Put, Get, LabelOf, KeyOf;
      var front, r := rows[..|rows| - 1], rows[|rows| - 1];
      EntriesAreExact(front, publishable, publicProvider, key, date);
      var models, who := Group(front, publishable, publicProvider), LabelOf(r, publishable, publicProvider);
      if who.Some? {
        var k := KeyOf(who.value, r.authType);
        var e := Get(models, k).GetOr(NewEntry(who.value, r.authType));
        PutKeepsUnique(models, k, WithRow(e, r));
        GetPut(models, k, WithRow(e, r), key);
        if k == key {
          NoDaysYet(date);
          WithRowExact(e, r, date);
        }
      }
    } else {
      NothingUnder(key);
    }
  }

  lemma NoDaysYet(date: string)
    ensures UniqueKeys<int>([]) && Get<int>([], date) == None
  {
  }

  lemma NothingUnder(key: string)
    ensures UniqueKeys<Entry>([]) && Get<Entry>([], key) == None
  {
  }

  // ----- what each entry costs ----------------------------------------------------------------------------------------

  /** The cost of the rows that pass `keep`, if any of them has one. */
  function CostOf(rows: seq<Row>, keep: Row -> bool): Option<real> {
    if rows == [] then None
    else
      var before, r := CostOf(rows[..|rows| - 1], keep), rows[|rows| - 1];
      if keep(r) && r.cost.Some? then Some(before.GetOr(0.0) + r.cost.value) else before
  }

  lemma {:induction false} CostOfNothing(rows: seq<Row>, keep: Row -> bool)
    ensures CostOf(rows, keep).None? <==> forall r | r in rows && keep(r) :: r.cost.None?
  {
    if rows != [] {
      assert rows == rows[..|rows| - 1] + [rows[|rows| - 1]];
      CostOfNothing(rows[..|rows| - 1], keep);
    }
  }

  function CostUnder(models: ModelMap, key: string): Option<real> {
    var e := Get(models, key);
    if e.Some? then e.value.cost else None
  }

  lemma CostLast(rows: seq<Row>, keep: Row -> bool)
    requires rows != []
    ensures var before, r := CostOf(rows[..|rows| - 1], keep), rows[|rows| - 1];
      CostOf(rows, keep) == if keep(r) then AddCost(before, r.cost) else before
  {
  }

  lemma CostStep(models: ModelMap, r: Row, who: Label, key: string)
    requires UniqueKeys(models)
    ensures var k := KeyOf(who, r.authType);
      var next := Put(models, k, WithRow(Get(models, k).GetOr(NewEntry(who, r.authType)), r));
      UniqueKeys(next) && CostUnder(next, key) == if k == key then AddCost(CostUnder(models, key), r.cost) else CostUnder(models, key)
  {
    hide UniqueKeys, Put, Get, KeyOf, AddCost;
    var k := KeyOf(who, r.authType);
    var e := WithRow(Get(models, k).GetOr(NewEntry(who, r.authType)), r);
    PutKeepsUnique(models, k, e);
    GetPut(models, k, e, key);
  }

  /** Each model's cost is the cost of exactly the rows published under its key, and none when none of
    * them has one. */
  lemma {:induction false} CostsAreExact(rows: seq<Row>, publishable: set<string>, publicProvider: Resolver, key: string)
    ensures var models := Group(rows, publishable, publicProvider);
      UniqueKeys(models) && CostUnder(models, key) == CostOf(rows, KeyedRows(publishable, publicProvider, key, None))
  {
    if rows != [] {
      hide Group, UniqueKeys, Put, Get, WithRow, CostUnder, AddCost, LabelOf, KeyOf;
      GroupLast(rows, publishable, publicProvider);
      var front, r := rows[..|rows| - 1], rows[|rows| - 1];
      CostsAreExact(front, publishable, publicProvider, key);
      CostLast(rows, KeyedRows(publishable, publicProvider, key, None));
      var who := LabelOf(r, publishable, publicProvider);
      if who.Some? { CostStep(Group(front, publishable, publicProvider), r, who.value, key); }
    } else {
      NothingUnder(key);
    }
  }

  function ModelsTotal(models: seq<Entry>): int {
    if models == [] then 0 else ModelsTotal(models[..|models| - 1]) + models[|models| - 1].total
  }

  function ProviderTotal(): Provider -> int { (p: Provider) => p.total }

  function AuthTotal(): Auth -> int { (a: Auth) => a.total }

  function AuthsTotal(p: Provider): int { Sum(p.authTotals, AuthTotal()) }

  ghost predicate ProviderAddsUp(p: Provider) {
    p.total == ModelsTotal(p.models) == AuthsTotal(p)
  }

  lemma WithEntryAddsUp(p: Provider, e: Entry)
    requires ProviderAddsUp(p)
    ensures ProviderAddsUp(WithEntry(p, e))
  {
    hide Sum, AuthKey;
    assert (p.models + [e])[..|p.models|] == p.models;
    var auth := Get(p.authTotals, AuthKey(e)).GetOr(Auth(0, 0));
    SumPut(p.authTotals, AuthKey(e), Auth(auth.total + e.total, auth.modelCount + (if e.total > 0 then 1 else 0)), AuthTotal());
  }

  lemma {:induction false} ProvidersConserve(models: ModelMap)
    ensures Sum(Providers(models), ProviderTotal()) == Sum(models, EntryTotal())
    ensures forall x | x in Providers(models) :: ProviderAddsUp(x.value)
  {
    if models != [] {
      var e := models[|models| - 1].value;
      ProvidersConserve(models[..|models| - 1]);
      var before := Providers(models[..|models| - 1]);
      var p := Get(before, e.provider).GetOr(Provider(0, [], []));
      if HasKey(before, e.provider) { assert before[IndexOf(before, e.provider)] in before; }
      WithEntryAddsUp(p, e);
      SumPut(before, e.provider, WithEntry(p, e), ProviderTotal());
      forall x | x in Providers(models) ensures ProviderAddsUp(x.value) {
        PutSlots(before, e.provider, WithEntry(p, e), x);
      }
    }
  }

  /** Two levels of grouping and the folding of custom names lose no token: the providers' totals add
    * up to the kept rows, each provider's total is the sum of its models' and of its auth types', and
    * each model's total is the sum of its days. */
  lemma TokensAreConserved(rows: seq<Row>, publishable: set<string>, publicProvider: Resolver)
    ensures var models := Group(rows, publishable, publicProvider);
      && Sum(Providers(models), ProviderTotal()) == Tokens(rows, (r: Row) => LabelOf(r, publishable, publicProvider).Some?)
      && (forall x | x in Providers(models) :: ProviderAddsUp(x.value))
      && (forall x | x in models :: x.value.total == DailyTotal(x.value))
  {
    GroupConserves(rows, publishable, publicProvider);
    GroupDailyAddsUp(rows, publishable, publicProvider);
    ProvidersConserve(Group(rows, publishable, publicProvider));
  }

  // ----- the string key ------------------------------------------------------------------------------------------

  predicate NoColon(s: string) { ':' !in s }

  lemma SplitAtFirstColon(a: string, x: string, b: string, y: string)
    requires NoColon(a) && NoColon(b) && a + ":" + x == b + ":" + y
    ensures a == b && x == y
  {
    var s := a + ":" + x;
    assert s[|a|] == ':' && s[|b|] == ':';
    assert s[..|a|] == a && s[..|b|] == b;
    PrefixHas(s, |a|, |b|);
    PrefixHas(s, |b|, |a|);
    assert s[|a| + 1..] == x && s[|b| + 1..] == y;
  }

  lemma SplitAtLastColon(a: string, x: string, b: string, y: string)
    requires NoColon(x) && NoColon(y) && a + ":" + x == b + ":" + y
    ensures a == b && x == y
  {
    var s := a + ":" + x;
    assert s[|a|] == ':' && s[|b|] == ':';
    assert s[..|a|] == a && s[..|b|] == b;
    assert s[|a| + 1..] == x && s[|b| + 1..] == y;
    SuffixHas(s, |b|, |a| + 1);
    SuffixHas(s, |a|, |b| + 1);
  }

  /** The key tells entries apart when providers and auth types hold no colon, whatever the model
    * names; a missing auth type and an empty one share a key. */
  lemma KeyIsInjective(a: Label, x: Option<string>, b: Label, y: Option<string>)
    requires NoColon(a.provider) && NoColon(b.provider) && NoColon(x.GetOr("")) && NoColon(y.GetOr(""))
    ensures KeyOf(a, x) == KeyOf(b, y) <==> a == b && x.GetOr("") == y.GetOr("")
  {
    if KeyOf(a, x) == KeyOf(b, y) {
      SplitAtLastColon(a.provider + ":" + a.model, x.GetOr(""), b.provider + ":" + b.model, y.GetOr(""));
      SplitAtFirstColon(a.provider, a.model, b.provider, b.model);
    }
  }

  ghost predicate KeysMeet(a: string, b: string, authType: Option<string>) {
    exists m, n :: KeyOf(Label(a, m), authType) == KeyOf(Label(b, n), authType)
  }

  /** With colons, models of two providers share an entry for some model names exactly when one
    * provider's name is the other's followed by a colon and more. */
  lemma ProvidersCollideExactly(a: string, b: string, authType: Option<string>)
    requires a != b
    ensures KeysMeet(a, b, authType) <==> a + ":" <= b || b + ":" <= a
  {
    if m, n :| KeyOf(Label(a, m), authType) == KeyOf(Label(b, n), authType) {
      KeysMeetAtPrefix(a, m, b, n, authType);
    }
    if a + ":" <= b { PrefixCollides(a, b, authType); }
    if b + ":" <= a {
      PrefixCollides(b, a, authType);
      var m, n :| KeyOf(Label(b, m), authType) == KeyOf(Label(a, n), authType);
      assert KeyOf(Label(a, n), authType) == KeyOf(Label(b, m), authType);
    }
  }

  lemma KeysMeetAtPrefix(a: string, m: string, b: string, n: string, authType: Option<string>)
    requires a != b && KeyOf(Label(a, m), authType) == KeyOf(Label(b, n), authType)
    ensures a + ":" <= b || b + ":" <= a
  {
    var s := KeyOf(Label(a, m), authType);
    assert s[..|a|] == a && s[..|b|] == b;
    assert s[|a|] == ':' && s[|b|] == ':';
    if |a| < |b| {
      assert b[..|a| + 1] == s[..|a| + 1] == a + ":";
    } else if |b| < |a| {
      assert a[..|b| + 1] == s[..|b| + 1] == b + ":";
    }
  }

  lemma PrefixCollides(a: string, b: string, authType: Option<string>)
    requires a + ":" <= b
    ensures KeysMeet(a, b, authType)
  {
    var rest := b[|a| + 1..];
    assert b == a + ":" + rest;
    assert KeyOf(Label(a, rest + ":"), authType) == KeyOf(Label(b, ""), authType);
  }

  // ----- what each provider is credited with -----------------------------------------------------------------------

  ghost predicate Keyable(rows: seq<Row>, publishable: set<string>, publicProvider: Resolver) {
    forall r | r in rows :: NoColon(r.authType.GetOr(""))
      && (LabelOf(r, publishable, publicProvider).Some? ==> NoColon(LabelOf(r, publishable, publicProvider).value.provider))
  }

  /** Every entry stands under the key of its own label. */
  ghost predicate OwnKeys(models: ModelMap) {
    forall x | x in models ::
      && x.key == KeyOf(Label(x.value.provider, x.value.model), x.value.authType)
      && NoColon(x.value.provider) && NoColon(x.value.authType.GetOr(""))
  }

  lemma {:induction false} GroupHasOwnKeys(rows: seq<Row>, publishable: set<string>, publicProvider: Resolver)
    requires Keyable(rows, publishable, publicProvider)
    ensures OwnKeys(Group(rows, publishable, publicProvider))
  {
    if rows != [] {
      var front, r := rows[..|rows| - 1], rows[|rows| - 1];
      assert rows == front + [r];
      GroupHasOwnKeys(front, publishable, publicProvider);
      var models, who := Group(front, publishable, publicProvider), LabelOf(r, publishable, publicProvider);
      if who.Some? {
        var key := KeyOf(who.value, r.authType);
        var e := Get(models, key).GetOr(NewEntry(who.value, r.authType));
        if HasKey(models, key) { assert models[IndexOf(models, key)] in models; }
        forall x | x in Put(models, key, WithRow(e, r))
          ensures x.key == KeyOf(Label(x.value.provider, x.value.model), x.value.authType)
               && NoColon(x.value.provider) && NoColon(x.value.authType.GetOr(""))
        {
          PutSlots(models, key, WithRow(e, r), x);
        }
      }
    }
  }

  /** The entry a row joins bears the row's label and, up to a missing one, its auth type. */
  lemma JoinedEntry(models: ModelMap, who: Label, authType: Option<string>)
    requires OwnKeys(models) && NoColon(who.provider) && NoColon(authType.GetOr(""))
    ensures var key := KeyOf(who, authType); var e := Get(models, key).GetOr(NewEntry(who, authType));
      && Label(e.provider, e.model) == who && AuthClass(e.authType) == AuthClass(authType)
      && (if HasKey(models, key) then e == models[IndexOf(models, key)].value else e.total == 0)
  {
    var key := KeyOf(who, authType);
    if HasKey(models, key) {
      var x := models[IndexOf(models, key)];
      assert x in models;
      KeyIsInjective(Label(x.value.provider, x.value.model), x.value.authType, who, authType);
    }
  }

  /** How an auth type is published when a missing, an empty and the default one are not told apart: a
    * missing and an empty one share an entry, published as whichever made it. */
  function AuthClass(authType: Option<string>): string {
    if authType.GetOr("") == "" then DEFAULT_AUTH else authType.value
  }

  function TotalFor(provider: string, auth: Option<string>): Entry -> int {
    (e: Entry) => if e.provider == provider && (auth.None? || AuthClass(e.authType) == auth.value) then e.total else 0
  }

  /** The rows published for the provider, and for the class of auth types if one is given. */
  function Credited(publishable: set<string>, publicProvider: Resolver, provider: string, auth: Option<string>): Row -> bool {
    (r: Row) =>
      var who := LabelOf(r, publishable, publicProvider);
      who.Some? && who.value.provider == provider && (auth.None? || AuthClass(r.authType) == auth.value)
  }

  lemma GroupLast(rows: seq<Row>, publishable: set<string>, publicProvider: Resolver)
    requires rows != []
    ensures var front, r := rows[..|rows| - 1], rows[|rows| - 1];
      var models, who := Group(front, publishable, publicProvider), LabelOf(r, publishable, publicProvider);
      Group(rows, publishable, publicProvider) ==
        if who.None? then models
        else var key := KeyOf(who.value, r.authType); Put(models, key, WithRow(Get(models, key).GetOr(NewEntry(who.value, r.authType)), r))
  {
    hide LabelOf, KeyOf, Put, Get;
  }

  lemma {:induction false} GroupCredits(rows: seq<Row>, publishable: set<string>, publicProvider: Resolver, provider: string, auth: Option<string>)
    requires Keyable(rows, publishable, publicProvider)
    ensures Sum(Group(rows, publishable, publicProvider), TotalFor(provider, auth)) ==
            Tokens(rows, Credited(publishable, publicProvider, provider, auth))
  {
    if rows != [] {
      hide Group, LabelOf, KeyOf, Put, HasKey, Get, NoColon, OwnKeys, AuthClass, AddCost, Sum;
      GroupLast(rows, publishable, publicProvider);
      var front, r := rows[..|rows| - 1], rows[|rows| - 1];
      assert rows == front + [r];
      GroupCredits(front, publishable, publicProvider, provider, auth);
      GroupHasOwnKeys(front, publishable, publicProvider);
      var models, who := Group(front, publishable, publicProvider), LabelOf(r, publishable, publicProvider);
      if who.Some? {
        var key := KeyOf(who.value, r.authType);
        var e := Get(models, key).GetOr(NewEntry(who.value, r.authType));
        JoinedEntry(models, who.value, r.authType);
        SumPut(models, key, WithRow(e, r), TotalFor(provider, auth));
      }
    }
  }

  lemma {:induction false} ProvidersSplit(models: ModelMap, provider: string)
    ensures UniqueKeys(Providers(models))
    ensures Get(Providers(models), provider).GetOr(Provider(0, [], [])).total == Sum(models, TotalFor(provider, None))
  {
    if models != [] {
      var e := models[|models| - 1].value;
      ProvidersSplit(models[..|models| - 1], provider);
      var before := Providers(models[..|models| - 1]);
      var p := Get(before, e.provider).GetOr(Provider(0, [], []));
      PutKeepsUnique(before, e.provider, WithEntry(p, e));
      GetPut(before, e.provider, WithEntry(p, e), provider);
    }
  }

  /** Without colons in providers and auth types, a provider is credited with exactly the tokens of
    * the rows published for it. */
  lemma ProvidersAreCreditedExactly(rows: seq<Row>, publishable: set<string>, publicProvider: Resolver, provider: string)
    requires Keyable(rows, publishable, publicProvider)
    ensures Get(Providers(Group(rows, publishable, publicProvider)), provider).GetOr(Provider(0, [], [])).total ==
            Tokens(rows, Credited(publishable, publicProvider, provider, None))
  {
    ProvidersSplit(Group(rows, publishable, publicProvider), provider);
    GroupCredits(rows, publishable, publicProvider, provider, None);
  }

  // ----- what each auth type is credited with ----------------------------------------------------------------------

  function ProviderOf(models: ModelMap, provider: string): Provider {
    Get(Providers(models), provider).GetOr(Provider(0, [], []))
  }

  function AuthCredit(p: Provider, authKey: string): int {
    Get(p.authTotals, authKey).GetOr(Auth(0, 0)).total
  }

  function KeyedTotal(provider: string, authKey: string): Entry -> int {
    (e: Entry) => if e.provider == provider && e.authType.GetOr("api_key") == authKey then e.total else 0
  }

  lemma EntryCredits(p: Provider, e: Entry, authKey: string)
    requires UniqueKeys(p.authTotals)
    ensures UniqueKeys(WithEntry(p, e).authTotals)
    ensures AuthCredit(WithEntry(p, e), authKey) == AuthCredit(p, authKey) + (if e.authType.GetOr("api_key") == authKey then e.total else 0)
  {
    hide Get, Put, UniqueKeys;
    var auth := Get(p.authTotals, AuthKey(e)).GetOr(Auth(0, 0));
    var after := Auth(auth.total + e.total, auth.modelCount + (if e.total > 0 then 1 else 0));
    PutKeepsUnique(p.authTotals, AuthKey(e), after);
    GetPut(p.authTotals, AuthKey(e), after, authKey);
  }

  lemma {:induction false} AuthsSplit(models: ModelMap, provider: string, authKey: string)
    ensures UniqueKeys(ProviderOf(models, provider).authTotals)
    ensures AuthCredit(ProviderOf(models, provider), authKey) == Sum(models, KeyedTotal(provider, authKey))
  {
    if models != [] {
      hide UniqueKeys, AuthKey, WithEntry, AuthCredit, Get, Put;
      var front, e := models[..|models| - 1], models[|models| - 1].value;
      AuthsSplit(front, provider, authKey);
      AddedProvider(front, e, models[|models| - 1].key, provider);
      assert models == front + [Slot(models[|models| - 1].key, e)];
      if e.provider == provider { EntryCredits(ProviderOf(front, provider), e, authKey); }
    } else {
      NoAuthYet(authKey);
    }
  }

  lemma NoAuthYet(authKey: string)
    ensures UniqueKeys<Auth>([]) && AuthCredit(Provider(0, [], []), authKey) == 0 && Get<Provider>([], authKey) == None
    ensures forall provider :: ProviderOf([], provider) == Provider(0, [], [])
  {
  }

  lemma AddedProvider(models: ModelMap, e: Entry, key: string, provider: string)
    ensures ProviderOf(models + [Slot(key, e)], provider) ==
      if e.provider == provider then WithEntry(ProviderOf(models, provider), e) else ProviderOf(models, provider)
  {
    var all := models + [Slot(key, e)];
    assert all[..|all| - 1] == models;
    ProvidersSplit(models, provider);
    GetPut(Providers(models), e.provider, WithEntry(ProviderOf(models, e.provider), e), provider);
  }

  lemma {:induction false} SumOfParts(models: ModelMap, f: Entry -> int, g: Entry -> int, h: Entry -> int)
    requires forall x | x in models :: f(x.value) == g(x.value) + h(x.value)
    ensures Sum(models, f) == Sum(models, g) + Sum(models, h)
  {
    if models != [] {
      assert models[|models| - 1] in models;
      SumOfParts(models[..|models| - 1], f, g, h);
    }
  }

  /** Without colons in providers and auth types, an auth type of a provider is credited with exactly the
    * tokens of the provider's rows with that auth type; those whose auth type is missing, empty or the
    * default share two keys, which together are credited with exactly theirs. */
  lemma AuthTypesAreCreditedExactly(rows: seq<Row>, publishable: set<string>, publicProvider: Resolver, provider: string, auth: string)
    requires Keyable(rows, publishable, publicProvider) && auth != ""
    ensures var p := ProviderOf(Group(rows, publishable, publicProvider), provider);
      AuthCredit(p, auth) + (if auth == DEFAULT_AUTH then AuthCredit(p, "") else 0) ==
      Tokens(rows, Credited(publishable, publicProvider, provider, Some(auth)))
  {
    hide Group, Keyable, LabelOf, AuthCredit, ProviderOf;
    var models := Group(rows, publishable, publicProvider);
    GroupCredits(rows, publishable, publicProvider, provider, Some(auth));
    AuthsSplit(models, provider, auth);
    AuthsSplit(models, provider, "");
    var rest := if auth == DEFAULT_AUTH then KeyedTotal(provider, "") else Nothing();
    SumOfParts(models, TotalFor(provider, Some(auth)), KeyedTotal(provider, auth), rest);
    if auth != DEFAULT_AUTH { SumOfZeros(models, Nothing()); }
  }

  ghost predicate NoEmptyAuth(rows: seq<Row>) {
    forall r | r in rows :: r.authType != Some("")
  }

  lemma {:induction false} EntriesHaveRowsAuth(rows: seq<Row>, publishable: set<string>, publicProvider: Resolver)
    requires NoEmptyAuth(rows)
    ensures forall x | x in Group(rows, publishable, publicProvider) :: x.value.authType != Some("")
  {
    if rows != [] {
      hide LabelOf, KeyOf, Put;
      GroupLast(rows, publishable, publicProvider);
      var front, r := rows[..|rows| - 1], rows[|rows| - 1];
      assert rows == front + [r];
      EntriesHaveRowsAuth(front, publishable, publicProvider);
      var models, who := Group(front, publishable, publicProvider), LabelOf(r, publishable, publicProvider);
      if who.Some? {
        var key := KeyOf(who.value, r.authType);
        var e := Get(models, key).GetOr(NewEntry(who.value, r.authType));
        if HasKey(models, key) { assert models[IndexOf(models, key)] in models; }
        forall x | x in Put(models, key, WithRow(e, r)) ensures x.value.authType != Some("") { PutSlots(models, key, WithRow(e, r), x); }
      }
    }
  }

  lemma {:induction false} SumOfZeros(models: ModelMap, f: Entry -> int)
    requires forall x | x in models :: f(x.value) == 0
    ensures Sum(models, f) == 0
  {
    if models != [] {
      assert models[|models| - 1] in models;
      SumOfZeros(models[..|models| - 1], f);
    }
  }

  /** When auth types are missing or not empty, each has a key of its own, a missing one that of the
    * default: nothing is credited to the empty one. */
  lemma MissingAuthIsDefault(rows: seq<Row>, publishable: set<string>, publicProvider: Resolver, provider: string, auth: string)
    requires Keyable(rows, publishable, publicProvider) && NoEmptyAuth(rows) && auth != ""
    ensures var p := ProviderOf(Group(rows, publishable, publicProvider), provider);
      AuthCredit(p, "") == 0 && AuthCredit(p, auth) == Tokens(rows, Credited(publishable, publicProvider, provider, Some(auth)))
  {
    hide Group, Keyable, LabelOf, AuthCredit, ProviderOf, NoEmptyAuth;
    var models := Group(rows, publishable, publicProvider);
    EntriesHaveRowsAuth(rows, publishable, publicProvider);
    AuthsSplit(models, provider, "");
    SumOfZeros(models, KeyedTotal(provider, ""));
    AuthTypesAreCreditedExactly(rows, publishable, publicProvider, provider, auth);
  }

  function AuthModels(p: Provider, authKey: string): nat {
    Get(p.authTotals, authKey).GetOr(Auth(0, 0)).modelCount
  }

  function UsedModel(provider: string, authKey: string): Entry -> int {
    (e: Entry) => if e.provider == provider && e.authType.GetOr("api_key") == authKey && e.total > 0 then 1 else 0
  }

  lemma EntryCounts(p: Provider, e: Entry, authKey: string)
    requires UniqueKeys(p.authTotals)
    ensures UniqueKeys(WithEntry(p, e).authTotals)
    ensures AuthModels(WithEntry(p, e), authKey) == AuthModels(p, authKey) + (if e.authType.GetOr("api_key") == authKey && e.total > 0 then 1 else 0)
  {
    hide Get, Put, UniqueKeys;
    var auth := Get(p.authTotals, AuthKey(e)).GetOr(Auth(0, 0));
    var after := Auth(auth.total + e.total, auth.modelCount + (if e.total > 0 then 1 else 0));
    PutKeepsUnique(p.authTotals, AuthKey(e), after);
    GetPut(p.authTotals, AuthKey(e), after, authKey);
  }

  /** The model count of a provider's auth type is the number of its models with that auth type that have
    * any tokens. */
  lemma {:induction false} ModelCountsAreExact(models: ModelMap, provider: string, authKey: string)
    ensures UniqueKeys(ProviderOf(models, provider).authTotals)
    ensures AuthModels(ProviderOf(models, provider), authKey) == Sum(models, UsedModel(provider, authKey))
  {
    if models != [] {
      hide UniqueKeys, AuthKey, WithEntry, AuthModels, Get, Put;
      var front, e := models[..|models| - 1], models[|models| - 1].value;
      ModelCountsAreExact(front, provider, authKey);
      AddedProvider(front, e, models[|models| - 1].key, provider);
      assert models == front + [Slot(models[|models| - 1].key, e)];
      if e.provider == provider { EntryCounts(ProviderOf(front, provider), e, authKey); }
    } else {
      NoModelsYet(authKey);
    }
  }

  lemma NoModelsYet(authKey: string)
    ensures UniqueKeys<Auth>([]) && AuthModels(Provider(0, [], []), authKey) == 0
    ensures forall provider :: ProviderOf([], provider) == Provider(0, [], [])
  {
  }

  function Nothing(): Entry -> int {
    (_: Entry) => 0
  }

  // ----- under which name each row counts --------------------------------------------------------------------------

  /** At least ten distinct tenants back the name. */
  predicate Backed(pairs: seq<Pair>, name: string) {
    |Tenants(pairs, name)| >= 10
  }

  /** The row counts for this model of this provider: a custom reference for its scrubbed name under
    * "Custom" if that is backed, and for the common bucket there if it is not; any other model for
    * itself, under the provider that the resolver gives. */
  predicate CountsFor(r: Row, pairs: seq<Pair>, publicProvider: Resolver, provider: string, model: string) {
    if IsCustomModel(r.model) then
      provider == "Custom" && model == if Backed(pairs, ScrubCustomModel(r.model)) then ScrubCustomModel(r.model) else "other-custom-models"
    else
      provider != "" && publicProvider(r.model, r.provider) == Some(provider) && model == r.model
  }

  lemma LabelMeaning(r: Row, pairs: seq<Pair>, publicProvider: Resolver, provider: string, model: string)
    ensures LabelOf(r, PublishableNames(pairs), publicProvider) == Some(Label(provider, model)) <==>
            CountsFor(r, pairs, publicProvider, provider, model)
  {
    hide PublishableNames, Tenants, ScrubCustomModel;
    PublishableNamesMeaning(pairs, ScrubCustomModel(r.model));
  }

  /** No colon in an auth type or in a provider that the resolver gives. */
  ghost predicate Colonless(rows: seq<Row>, publicProvider: Resolver) {
    forall r | r in rows :: NoColon(r.authType.GetOr("")) && NoColon(publicProvider(r.model, r.provider).GetOr(""))
  }

  lemma ColonlessIsKeyable(rows: seq<Row>, publishable: set<string>, publicProvider: Resolver)
    requires Colonless(rows, publicProvider)
    ensures Keyable(rows, publishable, publicProvider)
  {
    hide ScrubCustomModel, IsCustomModel;
  }

  function LabelTotal(who: Label): Entry -> int {
    (e: Entry) => if Label(e.provider, e.model) == who then e.total else 0
  }

  function Labelled(publishable: set<string>, publicProvider: Resolver, who: Label): Row -> bool {
    (r: Row) => LabelOf(r, publishable, publicProvider) == Some(who)
  }

  lemma {:induction false} GroupCreditsLabels(rows: seq<Row>, publishable: set<string>, publicProvider: Resolver, who: Label)
    requires Keyable(rows, publishable, publicProvider)
    ensures Sum(Group(rows, publishable, publicProvider), LabelTotal(who)) == Tokens(rows, Labelled(publishable, publicProvider, who))
  {
    if rows != [] {
      hide Group, LabelOf, KeyOf, Put, HasKey, Get, NoColon, OwnKeys, AuthClass, AddCost, Sum;
      GroupLast(rows, publishable, publicProvider);
      var front, r := rows[..|rows| - 1], rows[|rows| - 1];
      assert rows == front + [r];
      GroupCreditsLabels(front, publishable, publicProvider, who);
      GroupHasOwnKeys(front, publishable, publicProvider);
      var models, mine := Group(front, publishable, publicProvider), LabelOf(r, publishable, publicProvider);
      if mine.Some? {
        var key := KeyOf(mine.value, r.authType);
        var e := Get(models, key).GetOr(NewEntry(mine.value, r.authType));
        JoinedEntry(models, mine.value, r.authType);
        SumPut(models, key, WithRow(e, r), LabelTotal(who));
      }
    }
  }

  /** What a provider's list shows for a model, over all auth types. */
  function ListedTokens(models: seq<Entry>, model: string): int {
    if models == [] then 0
    else ListedTokens(models[..|models| - 1], model) + (if models[|models| - 1].model == model then models[|models| - 1].total else 0)
  }

  lemma {:induction false} ListsSplit(models: ModelMap, who: Label)
    ensures ListedTokens(ProviderOf(models, who.provider).models, who.model) == Sum(models, LabelTotal(who))
  {
    if models != [] {
      hide ProviderOf;
      var front, last := models[..|models| - 1], models[|models| - 1];
      assert models == front + [last];
      ListsSplit(front, who);
      AddedProvider(front, last.value, last.key, who.provider);
      var listed := ProviderOf(front, who.provider).models;
      assert (listed + [last.value])[..|listed|] == listed;
    }
  }

  lemma {:induction false} SameTokens(rows: seq<Row>, f: Row -> bool, g: Row -> bool)
    requires forall r | r in rows :: f(r) == g(r)
    ensures Tokens(rows, f) == Tokens(rows, g)
  {
    if rows != [] {
      assert rows[|rows| - 1] in rows;
      SameTokens(rows[..|rows| - 1], f, g);
    }
  }

  /** Without colons in providers and auth types, a provider's list shows for each model the tokens of
    * exactly the rows that count for it: for a custom name those of the references that scrub to it, if
    * ten tenants back it, and for the bucket those of all other references. */
  lemma ListedTokensAreExact(rows: seq<Row>, pairs: seq<Pair>, publicProvider: Resolver, provider: string, model: string)
    requires Colonless(rows, publicProvider)
    ensures ListedTokens(ProviderOf(Group(rows, PublishableNames(pairs), publicProvider), provider).models, model) ==
            Tokens(rows, (r: Row) => CountsFor(r, pairs, publicProvider, provider, model))
  {
    hide Group, PublishableNames, ProviderOf, LabelOf, CountsFor;
    var who, names := Label(provider, model), PublishableNames(pairs);
    ColonlessIsKeyable(rows, names, publicProvider);
    GroupCreditsLabels(rows, names, publicProvider, who);
    ListsSplit(Group(rows, names, publicProvider), who);
    var counts := (r: Row) => CountsFor(r, pairs, publicProvider, provider, model);
    forall r | r in rows ensures Labelled(names, publicProvider, who)(r) == counts(r) {
      LabelMeaning(r, pairs, publicProvider, provider, model);
    }
    SameTokens(rows, Labelled(names, publicProvider, who), counts);
  }

  // ----- anonymity ---------------------------------------------------------------------------------------------------

  lemma {:induction false} ProvidersListEntries(models: ModelMap)
    ensures forall x | x in Providers(models) :: forall e | e in x.value.models :: e.provider == x.key && exists y | y in models :: y.value == e
  {
    if models != [] {
      var front, last := models[..|models| - 1], models[|models| - 1];
      ProvidersListEntries(front);
      assert models == front + [last];
      var e := last.value;
      var before := Providers(front);
      var p := Get(before, e.provider).GetOr(Provider(0, [], []));
      if HasKey(before, e.provider) { assert before[IndexOf(before, e.provider)] in before; }
      forall x, d | x in Providers(models) && d in x.value.models
        ensures d.provider == x.key && exists y | y in models :: y.value == d
      {
        PutSlots(before, e.provider, WithEntry(p, e), x);
        if d != e {
          var y :| y in front && y.value == d;
          assert y in models;
        } else {
          assert last in models;
        }
      }
    }
  }

  /** Some row is published under the label. */
  ghost predicate HasLabel(rows: seq<Row>, publishable: set<string>, publicProvider: Resolver, who: Label) {
    exists r | r in rows :: LabelOf(r, publishable, publicProvider) == Some(who)
  }

  /** An entry keeps the label of the row that made it, whatever rows share its key. */
  lemma {:induction false} EntriesAreLabelled(rows: seq<Row>, publishable: set<string>, publicProvider: Resolver, x: Slot<Entry>)
    requires x in Group(rows, publishable, publicProvider)
    ensures HasLabel(rows, publishable, publicProvider, Label(x.value.provider, x.value.model))
  {
    var front, r := rows[..|rows| - 1], rows[|rows| - 1];
    assert rows == front + [r];
    var models, who := Group(front, publishable, publicProvider), LabelOf(r, publishable, publicProvider);
    if x in models {
      EntriesAreLabelled(front, publishable, publicProvider, x);
    } else {
      var key := KeyOf(who.value, r.authType);
      var e := Get(models, key).GetOr(NewEntry(who.value, r.authType));
      PutSlots(models, key, WithRow(e, r), x);
      if HasKey(models, key) {
        var y := models[IndexOf(models, key)];
        EntriesAreLabelled(front, publishable, publicProvider, y);
      }
    }
  }

  lemma ListedComesFromARow(rows: seq<Row>, publishable: set<string>, publicProvider: Resolver, x: Slot<Provider>, e: Entry)
    requires x in Providers(Group(rows, publishable, publicProvider)) && e in x.value.models
    ensures e.provider == x.key && HasLabel(rows, publishable, publicProvider, Label(x.key, e.model))
  {
    var models := Group(rows, publishable, publicProvider);
    ProvidersListEntries(models);
    var y :| y in models && y.value == e;
    EntriesAreLabelled(rows, publishable, publicProvider, y);
  }

  /** The name gives no reference away, and is the common bucket or backed by ten distinct tenants. */
  predicate Anonymous(pairs: seq<Pair>, name: string) {
    !IsCustomModel(name) && (name == OTHER_CUSTOM_MODELS || |Tenants(pairs, name)| >= MIN_TENANTS_PER_CUSTOM_MODEL)
  }

  lemma CustomLabelIsAnonymous(r: Row, pairs: seq<Pair>, publicProvider: Resolver)
    requires IsCustomModel(r.model)
    ensures var who := LabelOf(r, PublishableNames(pairs), publicProvider);
      who.Some? && who.value.provider == CUSTOM_PROVIDER_LABEL && Anonymous(pairs, who.value.model)
  {
    hide ScrubCustomModel, Tenants, PublishableNames;
    ScrubbedIsNoReference(r.model);
    PublishableNamesMeaning(pairs, ScrubCustomModel(r.model));
    assert OTHER_CUSTOM_MODELS[0] == 'o' && CUSTOM_PREFIX[0] == 'c';
  }

  /** A model listed for a provider comes from a row with that very label; and a row of custom traffic
    * lends its own name only if ten distinct tenants back it, and never a raw reference. */
  lemma CustomNamesAreBacked(rows: seq<Row>, pairs: seq<Pair>, publicProvider: Resolver, x: Slot<Provider>, e: Entry)
    requires x in Providers(Group(rows, PublishableNames(pairs), publicProvider)) && e in x.value.models
    ensures e.provider == x.key && HasLabel(rows, PublishableNames(pairs), publicProvider, Label(x.key, e.model))
    ensures forall r | r in rows && IsCustomModel(r.model) && LabelOf(r, PublishableNames(pairs), publicProvider) == Some(Label(x.key, e.model)) ::
      x.key == CUSTOM_PROVIDER_LABEL && Anonymous(pairs, e.model)
  {
    hide PublishableNames, Group, Providers;
    ListedComesFromARow(rows, PublishableNames(pairs), publicProvider, x, e);
    forall r | r in rows && IsCustomModel(r.model) && LabelOf(r, PublishableNames(pairs), publicProvider) == Some(Label(x.key, e.model))
      ensures x.key == CUSTOM_PROVIDER_LABEL && Anonymous(pairs, e.model)
    {
      CustomLabelIsAnonymous(r, pairs, publicProvider);
    }
  }

  /** Whatever the traffic, every model listed under the custom label is anonymous. */
  ghost predicate FloorHolds(publicProvider: Resolver) {
    forall rows, pairs, x, e | ListedUnder(rows, pairs, publicProvider, x, e) && x.key == CUSTOM_PROVIDER_LABEL :: Anonymous(pairs, e.model)
  }

  ghost predicate ListedUnder(rows: seq<Row>, pairs: seq<Pair>, publicProvider: Resolver, x: Slot<Provider>, e: Entry) {
    x in Providers(Group(rows, PublishableNames(pairs), publicProvider)) && e in x.value.models
  }

  /** The provider resolver never gives the custom label to a model without the custom prefix, except
    * to one that bears the bucket's own name. */
  ghost predicate KeepsCustomApart(publicProvider: Resolver) {
    forall model, provider | !IsCustomModel(model) && publicProvider(model, provider) == Some(CUSTOM_PROVIDER_LABEL) ::
      model == OTHER_CUSTOM_MODELS
  }

  lemma LoneGroup(r: Row, publishable: set<string>, publicProvider: Resolver)
    requires LabelOf(r, publishable, publicProvider).Some?
    ensures var who := LabelOf(r, publishable, publicProvider).value;
      Group([r], publishable, publicProvider) == [Slot(KeyOf(who, r.authType), WithRow(NewEntry(who, r.authType), r))]
  {
    hide LabelOf, KeyOf;
    assert Group([r][..0], publishable, publicProvider) == [];
  }

  lemma LoneProvider(x: Slot<Entry>)
    ensures Providers([x]) == [Slot(x.value.provider, WithEntry(Provider(0, [], []), x.value))]
  {
    hide WithEntry;
    assert Providers([x][..0]) == [];
  }

  lemma LoneRowIsListed(r: Row, pairs: seq<Pair>, publicProvider: Resolver) returns (x: Slot<Provider>, e: Entry)
    requires LabelOf(r, PublishableNames(pairs), publicProvider) == Some(Label(CUSTOM_PROVIDER_LABEL, r.model))
    ensures ListedUnder([r], pairs, publicProvider, x, e) && x.key == CUSTOM_PROVIDER_LABEL && e.model == r.model
  {
    hide LabelOf, KeyOf, AuthKey, PublishableNames, Group, Providers, Put, Get;
    var who := Label(CUSTOM_PROVIDER_LABEL, r.model);
    e := WithRow(NewEntry(who, r.authType), r);
    LoneGroup(r, PublishableNames(pairs), publicProvider);
    LoneProvider(Slot(KeyOf(who, r.authType), e));
    x := Slot(CUSTOM_PROVIDER_LABEL, WithEntry(Provider(0, [], []), e));
    assert e in x.value.models;
  }

  /** The ten-tenant floor guards `custom:` references only: it covers everything listed under the
    * custom label exactly when the resolver keeps other models out of it. */
  lemma FloorHoldsExactly(publicProvider: Resolver)
    ensures FloorHolds(publicProvider) <==> KeepsCustomApart(publicProvider)
  {
    if KeepsCustomApart(publicProvider) {
      forall rows, pairs, x, e | ListedUnder(rows, pairs, publicProvider, x, e) && x.key == CUSTOM_PROVIDER_LABEL
        ensures Anonymous(pairs, e.model)
      {
        ListedIsAnonymous(rows, pairs, publicProvider, x, e);
      }
    } else {
      var model, provider :|
        !IsCustomModel(model) && publicProvider(model, provider) == Some(CUSTOM_PROVIDER_LABEL) && model != OTHER_CUSTOM_MODELS;
      assert PublishableNames([]) == {};
      var x, e := LoneRowIsListed(Row(model, provider, "", 0, None, None), [], publicProvider);
      assert Tenants([], model) == {};
      assert !Anonymous([], e.model);
    }
  }

  lemma ListedIsAnonymous(rows: seq<Row>, pairs: seq<Pair>, publicProvider: Resolver, x: Slot<Provider>, e: Entry)
    requires KeepsCustomApart(publicProvider) && ListedUnder(rows, pairs, publicProvider, x, e) && x.key == CUSTOM_PROVIDER_LABEL
    ensures Anonymous(pairs, e.model)
  {
    hide PublishableNames, Group, Providers;
    CustomNamesAreBacked(rows, pairs, publicProvider, x, e);
    var r :| r in rows && LabelOf(r, PublishableNames(pairs), publicProvider) == Some(Label(x.key, e.model));
    if !IsCustomModel(r.model) {
      assert OTHER_CUSTOM_MODELS[0] == 'o' && CUSTOM_PREFIX[0] == 'c';
    }
  }

  // ----- the service's own resolver ----------------------------------------------------------------------------------

  /** What the service knows of provider names: JavaScript's trim and toLowerCase, the display name an
    * id or alias is registered with, the normalization of ids, and the provider in a model's pricing. */
  datatype Names = Names(
    trim: string -> string,
    toLower: string -> string,
    displayName: string -> Option<string>,
    normalize: string -> string,
    pricedBy: string -> Option<string>)

  const CUSTOM_ID := "custom"
  const EXCLUDED_PROVIDERS: set<string> := {"Unknown"}

  function NormalizePublicProvider(n: Names, provider: Option<string>): Option<string> {
    var raw := n.trim(provider.GetOr(""));
    if provider.None? || raw == "" then None
    else
      var lower := n.toLower(raw);
      if lower == CUSTOM_ID || CUSTOM_PREFIX <= lower then Some(CUSTOM_PROVIDER_LABEL)
      else if n.displayName(lower).Some? then n.displayName(lower)
      else if n.displayName(n.normalize(raw)).Some? then n.displayName(n.normalize(raw))
      else Some(raw)
  }

  predicate Usable(provider: Option<string>) {
    provider.Some? && provider.value != "" && provider.value !in EXCLUDED_PROVIDERS
  }

  function PublicProviderFor(n: Names, model: string, recorded: Option<string>): Option<string> {
    var own, fallback := NormalizePublicProvider(n, recorded), NormalizePublicProvider(n, n.pricedBy(model));
    if Usable(own) then own else if Usable(fallback) then fallback else None
  }

  function ServiceResolver(n: Names): Resolver {
    (model: string, recorded: Option<string>) => PublicProviderFor(n, model, recorded)
  }

  /** The recorded provider reads as a custom one, by its id or by a registered display name. */
  predicate ReadsCustom(n: Names, provider: Option<string>) {
    NormalizePublicProvider(n, provider) == Some(CUSTOM_PROVIDER_LABEL)
  }

  /** No display name in the registry is the custom label, and no provider spelled like it has another
    * id in lower case. */
  ghost predicate CustomIsReserved(n: Names) {
    && (forall id :: n.displayName(id) != Some(CUSTOM_PROVIDER_LABEL))
    && n.toLower(CUSTOM_PROVIDER_LABEL) == CUSTOM_ID
  }

  /** With the label reserved, a provider reads as custom exactly when its trimmed, lowered id is
    * "custom" or starts with "custom:". */
  lemma ReadsCustomExactly(n: Names, provider: Option<string>)
    requires CustomIsReserved(n)
    ensures ReadsCustom(n, provider) <==>
      provider.Some? && n.trim(provider.value) != "" &&
      (n.toLower(n.trim(provider.value)) == CUSTOM_ID || CUSTOM_PREFIX <= n.toLower(n.trim(provider.value)))
  {
  }

  /** Under which name the service publishes a model that is no reference: its recorded provider decides
    * unless that is missing, blank or unknown, and then its price's provider does. A provider goes by the
    * custom label, else by the display name of its id, else by that of its normalized id, else as it was
    * recorded, trimmed. */
  lemma ProviderNames(n: Names, model: string, recorded: Option<string>, raw: string)
    requires raw != "" && n.toLower(raw) != "custom" && !("custom:" <= n.toLower(raw))
    ensures var id, other := n.displayName(n.toLower(raw)), n.displayName(n.normalize(raw));
      forall p: Option<string> | p.Some? && n.trim(p.value) == raw ::
        NormalizePublicProvider(n, p) == Some(if id.Some? then id.value else if other.Some? then other.value else raw)
    ensures NormalizePublicProvider(n, None) == None
    ensures forall p: Option<string> | p.Some? && n.trim(p.value) == "" :: NormalizePublicProvider(n, p) == None
    ensures var own, priced := NormalizePublicProvider(n, recorded), NormalizePublicProvider(n, n.pricedBy(model));
      PublicProviderFor(n, model, recorded) ==
        if own.Some? && own.value != "" && own.value != "Unknown" then own
        else if priced.Some? && priced.value != "" && priced.value != "Unknown" then priced
        else None
  {
  }

  /** A row keeps clear of the custom label: it is a `custom:` reference, which the floor covers, or its
    * provider does not read as custom, nor, when it has none of its own, does its price's provider. */
  predicate KeptApart(n: Names, r: Row) {
    || IsCustomModel(r.model)
    || r.model == OTHER_CUSTOM_MODELS
    || !(if Usable(NormalizePublicProvider(n, r.provider)) then ReadsCustom(n, r.provider) else ReadsCustom(n, n.pricedBy(r.model)))
  }

  lemma KeptApartMeaning(n: Names, r: Row, publishable: set<string>)
    ensures KeptApart(n, r) <==>
      IsCustomModel(r.model) || r.model == OTHER_CUSTOM_MODELS
      || LabelOf(r, publishable, ServiceResolver(n)) != Some(Label(CUSTOM_PROVIDER_LABEL, r.model))
  {
  }

  /** Everything that this traffic lists under the custom label is anonymous. */
  ghost predicate WithinFloor(rows: seq<Row>, pairs: seq<Pair>, publicProvider: Resolver) {
    forall x, e | ListedUnder(rows, pairs, publicProvider, x, e) && x.key == CUSTOM_PROVIDER_LABEL :: Anonymous(pairs, e.model)
  }

  /** The row endangers no one: it is kept apart, or at least ten tenants back its name anyway. */
  predicate Harmless(n: Names, r: Row, pairs: seq<Pair>) {
    KeptApart(n, r) || Anonymous(pairs, r.model)
  }

  lemma PutContains<V>(m: OrderedMap<V>, key: string, v: V, x: Slot<V>)
    requires x in m
    ensures Slot(key, v) in Put(m, key, v)
    ensures x in Put(m, key, v) || (HasKey(m, key) && x == m[IndexOf(m, key)])
  {
    var all := Put(m, key, v);
    var i :| 0 <= i < |m| && m[i] == x;
    if HasKey(m, key) {
      assert all[IndexOf(m, key)] == Slot(key, v);
      assert i != IndexOf(m, key) ==> all[i] == x;
    } else {
      assert all[|m|] == Slot(key, v) && all[i] == x;
    }
  }

  lemma PutOwn<V>(m: OrderedMap<V>, key: string, v: V)
    ensures Slot(key, v) in Put(m, key, v)
  {
    var all := Put(m, key, v);
    assert all[if HasKey(m, key) then IndexOf(m, key) else |m|] == Slot(key, v);
  }

  /** Without colons, every row that is published has an entry with its label. */
  lemma {:induction false} RowHasEntry(rows: seq<Row>, publishable: set<string>, publicProvider: Resolver, r: Row) returns (x: Slot<Entry>)
    requires Keyable(rows, publishable, publicProvider) && r in rows && LabelOf(r, publishable, publicProvider).Some?
    ensures x in Group(rows, publishable, publicProvider)
    ensures LabelOf(r, publishable, publicProvider) == Some(Label(x.value.provider, x.value.model))
  {
    hide LabelOf, KeyOf, Put, Get, NoColon, OwnKeys;
    var front, last := rows[..|rows| - 1], rows[|rows| - 1];
    assert rows == front + [last];
    GroupHasOwnKeys(front, publishable, publicProvider);
    var models, who := Group(front, publishable, publicProvider), LabelOf(last, publishable, publicProvider);
    if who.None? {
      x := RowHasEntry(front, publishable, publicProvider, r);
      return;
    }
    var key := KeyOf(who.value, last.authType);
    var e := Get(models, key).GetOr(NewEntry(who.value, last.authType));
    JoinedEntry(models, who.value, last.authType);
    PutOwn(models, key, WithRow(e, last));
    if r in front {
      x := RowHasEntry(front, publishable, publicProvider, r);
      PutContains(models, key, WithRow(e, last), x);
      if HasKey(models, key) && x == models[IndexOf(models, key)] { x := Slot(key, WithRow(e, last)); }
    } else {
      x := Slot(key, WithRow(e, last));
    }
  }

  /** Every entry is listed for its provider. */
  lemma {:induction false} EntryIsListed(models: ModelMap, x: Slot<Entry>) returns (p: Slot<Provider>)
    requires x in models
    ensures p in Providers(models) && p.key == x.value.provider && x.value in p.value.models
  {
    hide Put, Get, HasKey;
    var front, last := models[..|models| - 1], models[|models| - 1];
    assert models == front + [last];
    var e, before := last.value, Providers(front);
    var now := WithEntry(Get(before, e.provider).GetOr(Provider(0, [], [])), e);
    PutOwn(before, e.provider, now);
    assert e in now.models;
    if x in front {
      p := EntryIsListed(front, x);
      PutContains(before, e.provider, now, p);
      if HasKey(before, e.provider) && p == before[IndexOf(before, e.provider)] {
        PresentValue(before, e.provider);
        p := Slot(e.provider, now);
      }
    } else {
      p := Slot(e.provider, now);
    }
  }

  lemma PresentValue<V>(m: OrderedMap<V>, key: string)
    requires HasKey(m, key)
    ensures m[IndexOf(m, key)].key == key && Get(m, key) == Some(m[IndexOf(m, key)].value)
  {
  }

  /** Without colons, a model is listed for a provider exactly when some row counts for it there. */
  lemma ListedExactly(rows: seq<Row>, pairs: seq<Pair>, publicProvider: Resolver, provider: string, model: string)
    requires Colonless(rows, publicProvider)
    ensures (exists x, e :: ListedUnder(rows, pairs, publicProvider, x, e) && x.key == provider && e.model == model) <==>
            exists r | r in rows :: CountsFor(r, pairs, publicProvider, provider, model)
  {
    hide Group, PublishableNames, Providers, LabelOf, CountsFor;
    var names := PublishableNames(pairs);
    ColonlessIsKeyable(rows, names, publicProvider);
    if x, e :| ListedUnder(rows, pairs, publicProvider, x, e) && x.key == provider && e.model == model {
      ListedComesFromARow(rows, names, publicProvider, x, e);
      var r :| r in rows && LabelOf(r, names, publicProvider) == Some(Label(provider, model));
      LabelMeaning(r, pairs, publicProvider, provider, model);
    }
    if r :| r in rows && CountsFor(r, pairs, publicProvider, provider, model) {
      LabelMeaning(r, pairs, publicProvider, provider, model);
      var y := RowHasEntry(rows, names, publicProvider, r);
      var p := EntryIsListed(Group(rows, names, publicProvider), y);
      assert ListedUnder(rows, pairs, publicProvider, p, y.value);
    }
  }

  /** Under the service's resolver, and without colons in providers and auth types, traffic keeps within
    * the ten-tenant floor exactly when each of its rows is harmless. */
  lemma TrafficIsAnonymousExactly(n: Names, rows: seq<Row>, pairs: seq<Pair>)
    requires Keyable(rows, PublishableNames(pairs), ServiceResolver(n))
    ensures WithinFloor(rows, pairs, ServiceResolver(n)) <==> forall r | r in rows :: Harmless(n, r, pairs)
  {
    hide PublishableNames, Group, Providers, KeptApart, LabelOf, Keyable, Anonymous, ServiceResolver;
    if forall r | r in rows :: Harmless(n, r, pairs) {
      forall x, e | ListedUnder(rows, pairs, ServiceResolver(n), x, e) && x.key == CUSTOM_PROVIDER_LABEL ensures Anonymous(pairs, e.model) {
        HarmlessTrafficIsAnonymous(n, rows, pairs, x, e);
      }
    }
    if WithinFloor(rows, pairs, ServiceResolver(n)) {
      forall r | r in rows ensures Harmless(n, r, pairs) {
        if !KeptApart(n, r) {
          KeptApartMeaning(n, r, PublishableNames(pairs));
          var x := RowHasEntry(rows, PublishableNames(pairs), ServiceResolver(n), r);
          var p := EntryIsListed(Group(rows, PublishableNames(pairs), ServiceResolver(n)), x);
          assert ListedUnder(rows, pairs, ServiceResolver(n), p, x.value);
        }
      }
    }
  }

  /** For a single row the condition on colons is not needed. */
  lemma LoneRowExactly(n: Names, r: Row, pairs: seq<Pair>)
    ensures WithinFloor([r], pairs, ServiceResolver(n)) <==> Harmless(n, r, pairs)
  {
    hide PublishableNames, Group, Providers, KeptApart, LabelOf, Anonymous, ServiceResolver;
    KeptApartMeaning(n, r, PublishableNames(pairs));
    if Harmless(n, r, pairs) {
      forall x, e | ListedUnder([r], pairs, ServiceResolver(n), x, e) && x.key == CUSTOM_PROVIDER_LABEL ensures Anonymous(pairs, e.model) {
        HarmlessTrafficIsAnonymous(n, [r], pairs, x, e);
      }
    } else {
      var x, e := LoneRowIsListed(r, pairs, ServiceResolver(n));
    }
  }

  /** Whatever the keys, traffic whose rows are all harmless lists nothing under the custom label that is
    * not anonymous. */
  lemma HarmlessTrafficIsAnonymous(n: Names, rows: seq<Row>, pairs: seq<Pair>, x: Slot<Provider>, e: Entry)
    requires forall r | r in rows :: Harmless(n, r, pairs)
    requires ListedUnder(rows, pairs, ServiceResolver(n), x, e) && x.key == CUSTOM_PROVIDER_LABEL
    ensures Anonymous(pairs, e.model)
  {
    hide PublishableNames, Group, Providers, KeptApart, LabelOf;
    CustomNamesAreBacked(rows, pairs, ServiceResolver(n), x, e);
    var r :| r in rows && LabelOf(r, PublishableNames(pairs), ServiceResolver(n)) == Some(Label(x.key, e.model));
    KeptApartMeaning(n, r, PublishableNames(pairs));
    if !IsCustomModel(r.model) { CatalogRowKeepsItsName(r, PublishableNames(pairs), ServiceResolver(n)); }
    assert OTHER_CUSTOM_MODELS[0] == 'o' && CUSTOM_PREFIX[0] == 'c';
  }

  /** In particular rows that are all kept apart keep within the floor, whatever the tenants. */
  lemma KeptTrafficIsAnonymous(n: Names, rows: seq<Row>, pairs: seq<Pair>)
    requires forall r | r in rows :: KeptApart(n, r)
    ensures WithinFloor(rows, pairs, ServiceResolver(n))
  {
    hide PublishableNames, Group, Providers, KeptApart, ServiceResolver;
    forall x, e | ListedUnder(rows, pairs, ServiceResolver(n), x, e) && x.key == CUSTOM_PROVIDER_LABEL ensures Anonymous(pairs, e.model) {
      HarmlessTrafficIsAnonymous(n, rows, pairs, x, e);
    }
  }

  lemma CatalogRowKeepsItsName(r: Row, publishable: set<string>, publicProvider: Resolver)
    requires !IsCustomModel(r.model)
    ensures var who := LabelOf(r, publishable, publicProvider); who.Some? ==> who.value.model == r.model
  {
  }

  /** The service does not keep them apart: a model without the prefix that one tenant used through a
    * provider recorded as "custom" is published by its own name. */
  lemma ServiceMissesTheFloor(n: Names)
    requires n.trim(CUSTOM_ID) == CUSTOM_ID && n.toLower(CUSTOM_ID) == CUSTOM_ID
    ensures !FloorHolds(ServiceResolver(n))
    ensures !KeptApart(n, Row("llama-3", Some(CUSTOM_ID), "2026-01-01", 5, None, None))
  {
    var r := Row("llama-3", Some(CUSTOM_ID), "2026-01-01", 5, None, None);
    assert r.model[0] == 'l' && OTHER_CUSTOM_MODELS[0] == 'o' && CUSTOM_PREFIX[0] == 'c';
    assert CUSTOM_PROVIDER_LABEL[0] == 'C' && "Unknown"[0] == 'U';
    assert ReadsCustom(n, r.provider) && Usable(NormalizePublicProvider(n, r.provider));
    assert ServiceResolver(n)(r.model, r.provider) == Some(CUSTOM_PROVIDER_LABEL);
    FloorHoldsExactly(ServiceResolver(n));
  }
}
