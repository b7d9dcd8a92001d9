/** Parameter specs: when a parameter applies, expanding defaults, and dropping inapplicable ones. */
module ParamSpecs {
  import opened Prelude
  import opened JsonPaths

  type Primitive = j: Json | !j.Arr? && !j.Obj? witness Null

  /** The right-hand side of a rule entry; `Undefined` is JavaScript's undefined. */
  datatype Expected = Undefined | One(value: Primitive) | AnyOf(values: seq<Primitive>)

  datatype Condition = Is(expected: Expected) | Not(expected: Expected)

  /** Alternatives, each a list of (path, condition) entries that must all hold. */
  type Rule = seq<seq<(Path, Condition)>>

  datatype Spec = Spec(path: Path, default: Option<Json>, only: Option<Rule>, except: Option<Rule>)

  // ----- applicability --------------------------------------------------------------------------------

  /** A record or array never equals a primitive: their serialized forms differ. */
  predicate MatchesValue(expected: Expected, actual: Option<Json>) {
    match expected
    case Undefined => actual.None?
    case One(v) => actual == Some(v)
    case AnyOf(vs) => actual.Some? && actual.value in vs
  }

  predicate Meets(c: Condition, actual: Option<Json>) {
    match c
    case Is(e) => MatchesValue(e, actual)
    case Not(e) => actual.Some? && !MatchesValue(e, actual)
  }

  predicate MatchesAll(entries: seq<(Path, Condition)>, values: Record) {
    forall i | 0 <= i < |entries| :: Meets(entries[i].1, GetIn(values, entries[i].0))
  }

  predicate MatchesRule(rule: Rule, values: Record) {
    exists i | 0 <= i < |rule| :: MatchesAll(rule[i], values)
  }

  predicate Applicable(spec: Spec, values: Record) {
    && (spec.only.Some? ==> MatchesRule(spec.only.value, values))
    && (spec.except.Some? ==> !MatchesRule(spec.except.value, values))
  }

  /** `matchesAll`: stops at the first entry that fails. */
  method CheckEntries(entries: seq<(Path, Condition)>, values: Record) returns (r: bool)
    ensures r <==> MatchesAll(entries, values)
  {
    var i := 0;
    while i < |entries|
      invariant i <= |entries| && MatchesAll(entries[..i], values)
    {
      var (path, condition) := entries[i];
      var actual := GetPath(values, path);
      if condition.Not? {
        if actual.None? || MatchesValue(condition.expected, actual) {
          assert !Meets(entries[i].1, GetIn(values, entries[i].0));
          return false;
        }
      } else if !MatchesValue(condition.expected, actual) {
        assert !Meets(entries[i].1, GetIn(values, entries[i].0));
        return false;
      }
      i := i + 1;
    }
    return true;
  }

  /** A rule holds when all entries of any of its alternatives do: no alternative, it never holds; an empty
    * one, it always does. */
  lemma RulesAreAnyOfAll(a: Rule, b: Rule, x: seq<(Path, Condition)>, y: seq<(Path, Condition)>, values: Record)
    ensures MatchesRule(a + b, values) <==> MatchesRule(a, values) || MatchesRule(b, values)
    ensures !MatchesRule([], values) && (MatchesRule([x], values) <==> MatchesAll(x, values))
    ensures MatchesAll(x + y, values) <==> MatchesAll(x, values) && MatchesAll(y, values)
    ensures MatchesAll([], values)
  {
    if i :| 0 <= i < |a| && MatchesAll(a[i], values) { assert MatchesAll((a + b)[i], values); }
    if i :| 0 <= i < |b| && MatchesAll(b[i], values) { assert MatchesAll((a + b)[|a| + i], values); }
    if MatchesAll(x, values) { assert MatchesAll([x][0], values); }
    if MatchesAll(x + y, values) {
      assert forall i | 0 <= i < |x| :: (x + y)[i] == x[i];
      assert forall i | 0 <= i < |y| :: (x + y)[|x| + i] == y[i];
    }
  }

  /** What one entry asks of the value at its path: to be the one named or one of those named, or to be
    * absent; the negations ask for a value to be there and to be none of those. */
  lemma EntriesMean(path: Path, v: Primitive, vs: seq<Primitive>, values: Record)
    ensures var x := GetIn(values, path);
      && (MatchesAll([(path, Is(One(v)))], values) <==> x == Some(v))
      && (MatchesAll([(path, Is(AnyOf(vs)))], values) <==> exists i | 0 <= i < |vs| :: x == Some(vs[i]))
      && (MatchesAll([(path, Is(Undefined))], values) <==> x == None)
      && (MatchesAll([(path, Not(One(v)))], values) <==> x.Some? && x != Some(v))
      && (MatchesAll([(path, Not(AnyOf(vs)))], values) <==> x.Some? && forall i | 0 <= i < |vs| :: x != Some(vs[i]))
      && (MatchesAll([(path, Not(Undefined))], values) <==> x.Some?)
  {
    OneEntry(path, Is(One(v)), values);
    OneEntry(path, Is(AnyOf(vs)), values);
    OneEntry(path, Is(Undefined), values);
    OneEntry(path, Not(One(v)), values);
    OneEntry(path, Not(AnyOf(vs)), values);
    OneEntry(path, Not(Undefined), values);
  }

  lemma OneEntry(path: Path, c: Condition, values: Record)
    ensures MatchesAll([(path, c)], values) <==> Meets(c, GetIn(values, path))
  {
    assert [(path, c)][0] == (path, c);
  }

  /** The paths a spec's rules look at. */
  ghost predicate Reads(spec: Spec, p: Path) {
    exists rule: Rule, i, j ::
      (spec.only == Some(rule) || spec.except == Some(rule))
      && 0 <= i < |rule| && 0 <= j < |rule[i]| && rule[i][j].0 == p
  }

  lemma RuleReadsOnly(rule: Rule, a: Record, b: Record)
    requires forall i, j | 0 <= i < |rule| && 0 <= j < |rule[i]| :: GetIn(a, rule[i][j].0) == GetIn(b, rule[i][j].0)
    ensures MatchesRule(rule, a) == MatchesRule(rule, b)
  {
    forall i | 0 <= i < |rule| ensures MatchesAll(rule[i], a) == MatchesAll(rule[i], b) {}
  }

  /** Applicability depends on nothing but the values at the paths the rules name. */
  lemma ApplicabilityIsLocal(spec: Spec, a: Record, b: Record)
    requires forall p: Path | Reads(spec, p) :: GetIn(a, p) == GetIn(b, p)
    ensures Applicable(spec, a) == Applicable(spec, b)
  {
    if spec.only.Some? { SameOnRule(spec, spec.only.value, a, b); }
    if spec.except.Some? { SameOnRule(spec, spec.except.value, a, b); }
  }

  lemma SameOnRule(spec: Spec, rule: Rule, a: Record, b: Record)
    requires spec.only == Some(rule) || spec.except == Some(rule)
    requires forall p: Path | Reads(spec, p) :: GetIn(a, p) == GetIn(b, p)
    ensures MatchesRule(rule, a) == MatchesRule(rule, b)
  {
    forall i, j | 0 <= i < |rule| && 0 <= j < |rule[i]|
      ensures GetIn(a, rule[i][j].0) == GetIn(b, rule[i][j].0)
    {
      assert Reads(spec, rule[i][j].0);
    }
    RuleReadsOnly(rule, a, b);
  }

  // ----- expanding configured defaults ------------------------------------------------------------------

  predicate IsRoot(specs: seq<Spec>, key: string) {
    exists i | 0 <= i < |specs| :: specs[i].path[0] == key
  }

  /** The top-level records that some spec reaches into. */
  function ConfiguredRoots(params: Record, specs: seq<Spec>): set<string> {
    set key | key in params && params[key].Obj? && IsRoot(specs, key)
  }

  function ExpandStep(out: Record, roots: set<string>, spec: Spec): Record {
    if spec.path[0] in roots && !Has(out, spec.path) && Applicable(spec, out) && spec.default.Some?
    then Set(out, spec.path, spec.default.value)
    else out
  }

  function ExpandFrom(out: Record, roots: set<string>, specs: seq<Spec>): Record
    decreases |specs|
  {
    if specs == [] then out else ExpandFrom(ExpandStep(out, roots, specs[0]), roots, specs[1..])
  }

  function Expand(params: Record, specs: seq<Spec>): Record {
    ExpandFrom(params, ConfiguredRoots(params, specs), specs)
  }

  method ExpandConfiguredParamDefaults(params: Record, specs: seq<Spec>) returns (out: Record)
    ensures out == Expand(params, specs)
  {
    out := params;
    var configuredRoots := ConfiguredRoots(params, specs);
    if configuredRoots == {} {
      NoRootsNoChange(out, specs);
      return;
    }
    var i := 0;
    while i < |specs|
      invariant i <= |specs| && ExpandFrom(out, configuredRoots, specs[i..]) == Expand(params, specs)
    {
      var spec := specs[i];
      assert specs[i..][1..] == specs[i + 1..];
      i := i + 1;
      if spec.path[0] !in configuredRoots || Has(out, spec.path) || !Applicable(spec, out) || spec.default.None? {
        continue;
      }
      out := SetPath(out, spec.path, spec.default.value);
    }
  }

  lemma {:induction false} NoRootsNoChange(out: Record, specs: seq<Spec>)
    ensures ExpandFrom(out, {}, specs) == out
    decreases |specs|
  {
    if specs != [] { NoRootsNoChange(out, specs[1..]); }
  }

  /** `q` is neither on the way to, nor below, any spec path. */
  predicate UnrelatedToAll(specs: seq<Spec>, q: seq<string>) {
    forall i | 0 <= i < |specs| :: !Related(specs[i].path, q)
  }

  lemma UnrelatedTail(specs: seq<Spec>, q: seq<string>)
    requires UnrelatedToAll(specs, q) && specs != []
    ensures UnrelatedToAll(specs[1..], q)
  {
    forall i | 0 <= i < |specs[1..]| ensures !Related(specs[1..][i].path, q) {
      assert !Related(specs[i + 1].path, q);
    }
  }

  lemma {:induction false} ExpandFrame(out: Record, roots: set<string>, specs: seq<Spec>, q: seq<string>)
    requires UnrelatedToAll(specs, q)
    ensures GetIn(ExpandFrom(out, roots, specs), q) == GetIn(out, q)
    decreases |specs|
  {
    if specs != [] {
      assert !Related(specs[0].path, q);
      SetFrame(out, specs[0].path, specs[0].default.GetOr(Null), q);
      UnrelatedTail(specs, q);
      ExpandFrame(ExpandStep(out, roots, specs[0]), roots, specs[1..], q);
    }
  }

  // ----- the spec paths of a catalog entry ---------------------------------------------------------------

  /** No spec path lies on the way to another. */
  predicate PrefixFree(specs: seq<Spec>) {
    forall i, j | 0 <= i < |specs| && 0 <= j < |specs| && i != j :: !Related(specs[i].path, specs[j].path)
  }

  lemma PrefixFreeTail(specs: seq<Spec>)
    requires PrefixFree(specs) && specs != []
    ensures PrefixFree(specs[1..]) && UnrelatedToAll(specs[1..], specs[0].path)
  {
    forall i | 0 <= i < |specs[1..]| ensures !Related(specs[1..][i].path, specs[0].path) {
      assert !Related(specs[i + 1].path, specs[0].path);
    }
    forall i, j | 0 <= i < |specs[1..]| && 0 <= j < |specs[1..]| && i != j
      ensures !Related(specs[1..][i].path, specs[1..][j].path)
    {
      assert !Related(specs[i + 1].path, specs[j + 1].path);
    }
  }

  /** With prefix-free paths, expansion keeps every configured value, and writes a missing default
    * exactly when the spec reaches into a configured root and applies in the record built so far. */
  lemma {:induction false} ExpandKeepsConfigured(out: Record, roots: set<string>, specs: seq<Spec>, i: nat)
    requires PrefixFree(specs) && i < |specs|
    ensures var before, after := GetIn(out, specs[i].path), GetIn(ExpandFrom(out, roots, specs), specs[i].path);
      after == if before.Some? then before
               else if specs[i].path[0] in roots && Applicable(specs[i], ExpandFrom(out, roots, specs[..i])) then specs[i].default
               else None
    decreases |specs|
  {
    PrefixFreeTail(specs);
    var next := ExpandStep(out, roots, specs[0]);
    if i > 0 { assert specs[..i][1..] == specs[1..][..i - 1]; }
    if i == 0 {
      ExpandFrame(next, roots, specs[1..], specs[0].path);
      GetAfterSet(out, specs[0].path, specs[0].default.GetOr(Null));
    } else {
      ExpandKeepsConfigured(next, roots, specs[1..], i - 1);
      assert !Related(specs[0].path, specs[i].path);
      SetFrame(out, specs[0].path, specs[0].default.GetOr(Null), specs[i].path);
    }
  }

  lemma {:induction false} OnlyRootsMatter(out: Record, a: set<string>, b: set<string>, specs: seq<Spec>)
    requires forall i | 0 <= i < |specs| :: specs[i].path[0] in a <==> specs[i].path[0] in b
    ensures ExpandFrom(out, a, specs) == ExpandFrom(out, b, specs)
    decreases |specs|
  {
    if specs != [] {
      assert forall i | 0 <= i < |specs[1..]| :: specs[1..][i] == specs[i + 1];
      OnlyRootsMatter(ExpandStep(out, a, specs[0]), a, b, specs[1..]);
    }
  }

  /** The record built so far, when a spec is reached, is the expansion by the specs before it. */
  lemma BuiltSoFar(params: Record, specs: seq<Spec>, i: nat)
    requires i <= |specs|
    ensures ExpandFrom(params, ConfiguredRoots(params, specs), specs[..i]) == Expand(params, specs[..i])
  {
    var a, b := ConfiguredRoots(params, specs), ConfiguredRoots(params, specs[..i]);
    forall j | 0 <= j < i ensures specs[..i][j].path[0] in a <==> specs[..i][j].path[0] in b {
      assert IsRoot(specs, specs[j].path[0]) && specs[..i][j] == specs[j] && IsRoot(specs[..i], specs[j].path[0]);
    }
    OnlyRootsMatter(params, a, b, specs[..i]);
  }

  /** What stands at a spec path after expansion: the configured value if there is one; else the default,
    * exactly when a record is configured under the path's first key and the spec applies in the record
    * built so far; else nothing. */
  lemma ExpandedExactly(params: Record, specs: seq<Spec>, i: nat)
    requires PrefixFree(specs) && i < |specs|
    ensures var p := specs[i].path;
      GetIn(Expand(params, specs), p) ==
        if Has(params, p) then GetIn(params, p)
        else if p[0] in params && params[p[0]].Obj? && Applicable(specs[i], Expand(params, specs[..i])) then specs[i].default
        else None
  {
    ExpandKeepsConfigured(params, ConfiguredRoots(params, specs), specs, i);
    BuiltSoFar(params, specs, i);
    assert IsRoot(specs, specs[i].path[0]);
  }

  /** Expansion adds no top-level key and changes none that does not hold a record, whatever the specs. */
  lemma ExpandFillsRecordsOnly(params: Record, specs: seq<Spec>, key: string)
    requires !(key in params && params[key].Obj?)
    ensures GetIn(Expand(params, specs), [key]) == GetIn(params, [key])
  {
    OtherRootsStay(params, ConfiguredRoots(params, specs), specs, key);
  }

  lemma {:induction false} OtherRootsStay(out: Record, roots: set<string>, specs: seq<Spec>, key: string)
    requires key !in roots
    ensures GetIn(ExpandFrom(out, roots, specs), [key]) == GetIn(out, [key])
    decreases |specs|
  {
    if specs != [] {
      var spec := specs[0];
      if spec.path[0] in roots { SetFrame(out, spec.path, spec.default.GetOr(Null), [key]); }
      OtherRootsStay(ExpandStep(out, roots, spec), roots, specs[1..], key);
    }
  }

  // ----- the documented example -----------------------------------------------------------------------------

  const THINKING_TYPE: Path := ["thinking", "type"]
  const BUDGET_TOKENS: Path := ["thinking", "budget_tokens"]

  /** The type of thinking, and a budget with a default that applies while thinking is enabled. */
  const THINKING: seq<Spec> := [
    Spec(THINKING_TYPE, None, None, None),
    Spec(BUDGET_TOKENS, Some(Num(1024.0)), Some([[(THINKING_TYPE, Is(One(Str("enabled"))))]]), None)
  ]

  lemma ThinkingIsPrefixFree()
    ensures PrefixFree(THINKING)
  {
    assert THINKING_TYPE[1][0] == 't' && BUDGET_TOKENS[1][0] == 'b';
  }

  /** The budget applies exactly when the type is there and enabled. */
  lemma BudgetApplies(values: Record)
    ensures Applicable(THINKING[0], values)
    ensures Applicable(THINKING[1], values) <==> GetIn(values, THINKING_TYPE) == Some(Str("enabled"))
  {
    var rule := THINKING[1].only.value;
    assert MatchesAll(rule[0], values) <==> Meets(rule[0][0].1, GetIn(values, rule[0][0].0));
  }

  /** Configuring that thinking is enabled fills in the budget; without it, or with a scalar in place of
    * the record, nothing is filled in. */
  lemma ThinkingExample(params: Record)
    ensures GetIn(Expand(params, THINKING), THINKING_TYPE) == GetIn(params, THINKING_TYPE)
    ensures GetIn(Expand(params, THINKING), BUDGET_TOKENS) ==
      if Has(params, BUDGET_TOKENS) then GetIn(params, BUDGET_TOKENS)
      else if GetIn(params, THINKING_TYPE) == Some(Str("enabled")) then Some(Num(1024.0))
      else None
  {
    hide Applicable, PrefixFree;
    ThinkingIsPrefixFree();
    BudgetApplies(params);
    ExpandedExactly(params, THINKING, 0);
    ExpandedExactly(params, THINKING, 1);
    assert THINKING[..1] == [THINKING[0]];
    BudgetApplies(Expand(params, THINKING[..1]));
    FirstSpecAddsNothing(params, THINKING[0]);
    GetInStep(params, THINKING_TYPE);
  }

  lemma FirstSpecAddsNothing(params: Record, spec: Spec)
    requires spec.default.None?
    ensures Expand(params, [spec]) == params
  {
    var roots := ConfiguredRoots(params, [spec]);
    assert [spec][1..] == [] && ExpandStep(params, roots, spec) == params;
    assert ExpandFrom(params, roots, [spec]) == ExpandFrom(params, roots, []);
  }

  // ----- picking and omitting -----------------------------------------------------------------------------

  function PickStep(out: Record, from: Record, spec: Spec): Record {
    if Has(from, spec.path) && Applicable(spec, from) then Set(out, spec.path, GetIn(from, spec.path).value) else out
  }

  function PickFrom(out: Record, from: Record, specs: seq<Spec>): Record
    decreases |specs|
  {
    if specs == [] then out else PickFrom(PickStep(out, from, specs[0]), from, specs[1..])
  }

  /** The applicable spec values of `from`, and nothing else. */
  function Pick(from: Record, specs: seq<Spec>): Record {
    PickFrom(map[], from, specs)
  }

  method PickProviderCompatibleParams(params: Record, specs: seq<Spec>) returns (out: Record)
    ensures out == Pick(Expand(params, specs), specs)
  {
    var expanded := ExpandConfiguredParamDefaults(params, specs);
    out := map[];
    var i := 0;
    while i < |specs|
      invariant i <= |specs| && PickFrom(out, expanded, specs[i..]) == Pick(expanded, specs)
    {
      var spec := specs[i];
      assert specs[i..][1..] == specs[i + 1..];
      i := i + 1;
      var value := GetPath(expanded, spec.path);
      if value.None? || !Applicable(spec, expanded) {
        continue;
      }
      out := SetPath(out, spec.path, value.value);
    }
  }

  lemma {:induction false} PickFrame(out: Record, from: Record, specs: seq<Spec>, q: seq<string>)
    requires UnrelatedToAll(specs, q)
    ensures GetIn(PickFrom(out, from, specs), q) == GetIn(out, q)
    decreases |specs|
  {
    if specs != [] {
      assert !Related(specs[0].path, q);
      SetFrame(out, specs[0].path, GetIn(from, specs[0].path).GetOr(Null), q);
      UnrelatedTail(specs, q);
      PickFrame(PickStep(out, from, specs[0]), from, specs[1..], q);
    }
  }

  /** With prefix-free paths, a spec's value is picked exactly when it is present and applicable. */
  lemma {:induction false} PickedExactly(out: Record, from: Record, specs: seq<Spec>, i: nat)
    requires PrefixFree(specs) && i < |specs|
    ensures GetIn(PickFrom(out, from, specs), specs[i].path) ==
      if Has(from, specs[i].path) && Applicable(specs[i], from) then GetIn(from, specs[i].path)
      else GetIn(out, specs[i].path)
    decreases |specs|
  {
    PrefixFreeTail(specs);
    var next := PickStep(out, from, specs[0]);
    if i == 0 {
      PickFrame(next, from, specs[1..], specs[0].path);
      GetAfterSet(out, specs[0].path, GetIn(from, specs[0].path).GetOr(Null));
    } else {
      PickedExactly(next, from, specs[1..], i - 1);
      assert !Related(specs[0].path, specs[i].path);
      SetFrame(out, specs[0].path, GetIn(from, specs[0].path).GetOr(Null), specs[i].path);
    }
  }

  /** A spec path that is present but does not apply. */
  predicate Misplaced(spec: Spec, params: Record) {
    Has(params, spec.path) && !Applicable(spec, params)
  }

  function OmitFrom(out: Record, params: Record, specs: seq<Spec>): Record
    decreases |specs|
  {
    if specs == [] then out
    else OmitFrom(if Misplaced(specs[0], params) then Delete(out, specs[0].path) else out, params, specs[1..])
  }

  function Omit(params: Record, specs: seq<Spec>): Record {
    OmitFrom(params, params, specs)
  }

  method OmitProviderInapplicableParams(params: Record, specs: seq<Spec>) returns (out: Record)
    ensures out == Omit(params, specs)
  {
    out := params;
    var i := 0;
    while i < |specs|
      invariant i <= |specs| && OmitFrom(out, params, specs[i..]) == Omit(params, specs)
    {
      var spec := specs[i];
      assert specs[i..][1..] == specs[i + 1..];
      i := i + 1;
      if !Has(params, spec.path) || Applicable(spec, params) {
        continue;
      }
      out := DeletePath(out, spec.path);
    }
  }

  lemma {:induction false} OmitFrame(out: Record, params: Record, specs: seq<Spec>, q: seq<string>)
    requires forall i | 0 <= i < |specs| :: Misplaced(specs[i], params) ==> !Related(specs[i].path, q)
    ensures GetIn(OmitFrom(out, params, specs), q) == GetIn(out, q)
    decreases |specs|
  {
    if specs != [] {
      if Misplaced(specs[0], params) { DeleteFrame(out, specs[0].path, q); }
      OmitFrame(if Misplaced(specs[0], params) then Delete(out, specs[0].path) else out, params, specs[1..], q);
    }
  }

  lemma {:induction false} DeleteNeverCreates(m: Record, p: Path, q: Path)
    requires !Has(m, q)
    ensures !Has(Delete(m, p), q)
    decreases |p|
  {
    GetInStep(m, q);
    GetInStep(Delete(m, p), q);
    if |p| > 1 && |q| > 1 && p[0] == q[0] && ParentExists(m, p) {
      DeleteNeverCreates(m[p[0]].fields, p[1..], q[1..]);
    }
  }

  lemma {:induction false} OmitNeverCreates(out: Record, params: Record, specs: seq<Spec>, q: Path)
    requires !Has(out, q)
    ensures !Has(OmitFrom(out, params, specs), q)
    decreases |specs|
  {
    if specs != [] {
      DeleteNeverCreates(out, specs[0].path, q);
      OmitNeverCreates(if Misplaced(specs[0], params) then Delete(out, specs[0].path) else out, params, specs[1..], q);
    }
  }

  /** No spec path that was inapplicable in `params` survives. */
  lemma {:induction false} OmitRemoves(out: Record, params: Record, specs: seq<Spec>, i: nat)
    requires i < |specs| && !Applicable(specs[i], params)
    requires Has(out, specs[i].path) ==> Has(params, specs[i].path)
    ensures !Has(OmitFrom(out, params, specs), specs[i].path)
    decreases |specs|
  {
    var next := if Misplaced(specs[0], params) then Delete(out, specs[0].path) else out;
    if i == 0 {
      DeletedIsAbsent(out, specs[0].path);
      OmitNeverCreates(next, params, specs[1..], specs[0].path);
    } else {
      if !Has(out, specs[i].path) { DeleteNeverCreates(out, specs[0].path, specs[i].path); }
      OmitRemoves(next, params, specs[1..], i - 1);
    }
  }
}
