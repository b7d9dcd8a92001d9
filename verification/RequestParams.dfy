/** Merging configured parameters into a request body. */
module RequestParams {
  import opened Prelude
  import opened JsonPaths
  import opened ParamSpecs

  // ----- deep merge ---------------------------------------------------------------------------------------

  function MergeValue(base: Option<Json>, over: Json): Json
    decreases over, 1
  {
    if over.Obj? && base.Some? && base.value.Obj? then Obj(DeepMerge(base.value.fields, over)) else over
  }

  /** `over` is the record that wins; where both sides hold records they are merged in turn. */
  function DeepMerge(base: Record, over: Json): (r: Record)
    requires over.Obj?
    decreases over, 0
  {
    map k | k in base.Keys + over.fields.Keys ::
      if k in over.fields then MergeValue(Field(base, k), over.fields[k]) else base[k]
  }

  function Field(m: Record, k: string): Option<Json> {
    if k in m then Some(m[k]) else None
  }

  method DeepMergeLoop(base: Record, over: Json) returns (out: Record)
    requires over.Obj?
    ensures out == DeepMerge(base, over)
    decreases over
  {
    out := base;
    var keys := over.fields.Keys;
    while keys != {}
      invariant keys <= over.fields.Keys
      invariant out.Keys == base.Keys + (over.fields.Keys - keys)
      invariant forall k | k in out :: out[k] == if k in over.fields && k !in keys then MergeValue(Field(base, k), over.fields[k]) else base[k]
    {
      var key :| key in keys;
      keys := keys - {key};
      var value := over.fields[key];
      if value.Obj? && key in out && out[key].Obj? {
        var merged := DeepMergeLoop(out[key].fields, value);
        out := out[key := Obj(merged)];
      } else {
        out := out[key := value];
      }
    }
  }

  lemma {:induction false} SelfMerge(v: Json)
    ensures MergeValue(Some(v), v) == v
    decreases v
  {
    if v.Obj? {
      forall k | k in v.fields ensures MergeValue(Some(v.fields[k]), v.fields[k]) == v.fields[k] {
        SelfMerge(v.fields[k]);
      }
      assert DeepMerge(v.fields, v) == v.fields;
    }
  }

  lemma {:induction false} MergeIdempotent(base: Option<Json>, over: Json)
    ensures MergeValue(Some(MergeValue(base, over)), over) == MergeValue(base, over)
    decreases over, 1
  {
    if over.Obj? && base.Some? && base.value.Obj? {
      DeepMergeIdempotent(base.value.fields, over);
    } else {
      SelfMerge(over);
    }
  }

  /** Merging the same overrides a second time changes nothing. */
  lemma {:induction false} DeepMergeIdempotent(base: Record, over: Json)
    requires over.Obj?
    ensures DeepMerge(DeepMerge(base, over), over) == DeepMerge(base, over)
    decreases over, 0
  {
    var once := DeepMerge(base, over);
    forall k | k in over.fields ensures MergeValue(Field(once, k), over.fields[k]) == once[k] {
      MergeIdempotent(Field(base, k), over.fields[k]);
    }
    assert DeepMerge(once, over) == once;
  }

  /** `over` has a value wherever `base` has one: merging it over `base` leaves nothing of `base`. */
  predicate Covers(over: Json, base: Record)
    requires over.Obj?
    decreases over
  {
    forall k | k in base :: k in over.fields && (base[k].Obj? && over.fields[k].Obj? ==> Covers(over.fields[k], base[k].fields))
  }

  /** What merging leaves under one key. */
  lemma MergedAt(base: Record, over: Json, k: string)
    requires over.Obj?
    ensures k in DeepMerge(base, over) <==> k in base || k in over.fields
    ensures k in over.fields ==>
      DeepMerge(base, over)[k] ==
      (if k in base && base[k].Obj? && over.fields[k].Obj? then Obj(DeepMerge(base[k].fields, over.fields[k])) else over.fields[k])
    ensures k in base && k !in over.fields ==> DeepMerge(base, over)[k] == base[k]
  {
    if k in over.fields {
      assert DeepMerge(base, over)[k] == MergeValue(Field(base, k), over.fields[k]);
    }
  }

  lemma {:induction false} CoversExactly(base: Record, over: Json)
    requires over.Obj?
    ensures DeepMerge(base, over) == over.fields <==> Covers(over, base)
    decreases over
  {
    var merged := DeepMerge(base, over);
    forall k | k in base && k in over.fields && base[k].Obj? && over.fields[k].Obj?
      ensures merged[k] == over.fields[k] <==> Covers(over.fields[k], base[k].fields)
    {
      CoversExactly(base[k].fields, over.fields[k]);
      MergedAt(base, over, k);
      assert over.fields[k] == Obj(over.fields[k].fields);
    }
    if merged == over.fields {
      forall k | k in base ensures k in over.fields { assert k in merged; }
    }
    if Covers(over, base) {
      assert merged.Keys == over.fields.Keys;
      forall k | k in merged ensures merged[k] == over.fields[k] {
        MergedAt(base, over, k);
        if k in base && base[k].Obj? && over.fields[k].Obj? { assert Covers(over.fields[k], base[k].fields); }
      }
    }
  }

  /** Under `k` the middle record hides nothing of `a` that `c` would merge with: it has no value there,
    * or a record on which the three agree in turn; or a scalar, and `c` covers what it hides. */
  predicate AgreeAt(a: Record, b: Json, c: Json, k: string)
    requires b.Obj? && c.Obj?
    decreases c
  {
    k in a && a[k].Obj? && k in b.fields && k in c.fields && c.fields[k].Obj? ==>
      if b.fields[k].Obj? then forall n | n in c.fields[k].fields :: AgreeAt(a[k].fields, b.fields[k], c.fields[k], n)
      else Covers(c.fields[k], a[k].fields)
  }

  function LeftGrouped(a: Record, b: Json, c: Json): Record
    requires b.Obj? && c.Obj?
  {
    DeepMerge(DeepMerge(a, b), c)
  }

  function RightGrouped(a: Record, b: Json, c: Json): Record
    requires b.Obj? && c.Obj?
  {
    DeepMerge(a, Obj(DeepMerge(b.fields, c)))
  }

  /** Three records merge to the same result under either grouping exactly when they agree under every
    * key. */
  lemma {:induction false} DeepMergeAssociativeExactly(a: Record, b: Json, c: Json)
    requires b.Obj? && c.Obj?
    ensures LeftGrouped(a, b, c) == RightGrouped(a, b, c) <==> forall k | k in c.fields :: AgreeAt(a, b, c, k)
    decreases c
  {
    var left, right := LeftGrouped(a, b, c), RightGrouped(a, b, c);
    assert left.Keys == right.Keys;
    forall k | k in left ensures left[k] == right[k] <==> k !in c.fields || AgreeAt(a, b, c, k) {
      GroupedAt(a, b, c, k);
    }
    if forall k | k in c.fields :: AgreeAt(a, b, c, k) {
      assert left == right;
    }
  }

  /** Away from three records under one key the groupings never differ there. */
  lemma GroupedAlike(a: Record, b: Json, c: Json, k: string)
    requires b.Obj? && c.Obj? && k in LeftGrouped(a, b, c) && k in RightGrouped(a, b, c)
    requires !(k in a && a[k].Obj? && k in b.fields && k in c.fields && c.fields[k].Obj?)
    ensures LeftGrouped(a, b, c)[k] == RightGrouped(a, b, c)[k]
  {
    var ab, bc := DeepMerge(a, b), DeepMerge(b.fields, c);
    MergedAt(a, b, k);
    MergedAt(b.fields, c, k);
    MergedAt(ab, c, k);
    MergedAt(a, Obj(bc), k);
  }

  lemma {:induction false} GroupedAt(a: Record, b: Json, c: Json, k: string)
    requires b.Obj? && c.Obj? && k in LeftGrouped(a, b, c) && k in RightGrouped(a, b, c)
    ensures LeftGrouped(a, b, c)[k] == RightGrouped(a, b, c)[k] <==> k !in c.fields || AgreeAt(a, b, c, k)
    decreases c, 0
  {
    var ab, bc := DeepMerge(a, b), DeepMerge(b.fields, c);
    MergedAt(a, b, k);
    MergedAt(b.fields, c, k);
    MergedAt(ab, c, k);
    MergedAt(a, Obj(bc), k);
    if k in a && a[k].Obj? && k in b.fields && k in c.fields && c.fields[k].Obj? {
      var u, v, w := a[k].fields, b.fields[k], c.fields[k];
      assert w == Obj(w.fields);
      if v.Obj? {
        assert LeftGrouped(a, b, c)[k] == Obj(LeftGrouped(u, v, w)) && RightGrouped(a, b, c)[k] == Obj(RightGrouped(u, v, w));
        DeepMergeAssociativeExactly(u, v, w);
      } else {
        assert LeftGrouped(a, b, c)[k] == w && RightGrouped(a, b, c)[k] == Obj(DeepMerge(u, w));
        CoversExactly(u, w);
      }
    } else {
      GroupedAlike(a, b, c, k);
    }
  }

  /** Merging is not associative: a scalar in the middle hides the record below it only on the left. */
  lemma DeepMergeNotAssociative()
    ensures var a, b, c := map["k" := Obj(map["p" := Null])], Obj(map["k" := Null]), Obj(map["k" := Obj(map["q" := Null])]);
      LeftGrouped(a, b, c) != RightGrouped(a, b, c)
  {
    var a, b, c := map["k" := Obj(map["p" := Null])], Obj(map["k" := Null]), Obj(map["k" := Obj(map["q" := Null])]);
    DeepMergeAssociativeExactly(a, b, c);
    assert "p" in a["k"].fields && "p" !in c.fields["k"].fields;
    assert !Covers(c.fields["k"], a["k"].fields);
    assert !AgreeAt(a, b, c, "k");
  }

  /** Walking `q` in `v` ends at a missing key, not at a value in the way. */
  predicate FallsOff(v: Json, q: seq<string>)
    decreases |q|
  {
    v.Obj? && q != [] && (q[0] !in v.fields || FallsOff(v.fields[q[0]], q[1..]))
  }

  /** Overrides that do not reach `q` leave it as it is. */
  lemma {:induction false} MergeLeavesAlone(base: Record, over: Json, q: Path)
    requires FallsOff(over, q)
    ensures GetIn(DeepMerge(base, over), q) == GetIn(base, q)
    decreases |q|
  {
    var merged := DeepMerge(base, over);
    GetInStep(base, q);
    GetInStep(merged, q);
    if q[0] in over.fields {
      var child := over.fields[q[0]];
      if q[0] in base && base[q[0]].Obj? {
        MergeLeavesAlone(base[q[0]].fields, child, q[1..]);
      } else {
        FallsOffMisses(child.fields, q[1..]);
      }
    }
  }

  lemma {:induction false} FallsOffMisses(m: Record, q: Path)
    requires FallsOff(Obj(m), q)
    ensures !Has(m, q)
    decreases |q|
  {
    GetInStep(m, q);
    if q[0] in m { FallsOffMisses(m[q[0]].fields, q[1..]); }
  }

  /** An override present at `q` wins there: a scalar outright, a record by merging. */
  lemma {:induction false} MergeOverrides(base: Record, over: Json, q: Path)
    requires over.Obj? && Has(over.fields, q)
    ensures GetIn(DeepMerge(base, over), q) == Some(MergeValue(GetIn(base, q), GetIn(over.fields, q).value))
    decreases |q|
  {
    var merged := DeepMerge(base, over);
    GetInStep(base, q);
    GetInStep(merged, q);
    GetInStep(over.fields, q);
    if |q| > 1 {
      var child := over.fields[q[0]];
      if q[0] in base && base[q[0]].Obj? {
        MergeOverrides(base[q[0]].fields, child, q[1..]);
      }
    }
  }

  // ----- applying configured parameters --------------------------------------------------------------------

  /** The record `merged` of configured values. */
  function Configured(defaults: Record, specs: seq<Spec>): Record {
    Pick(Expand(defaults, specs), specs)
  }

  function MergedBody(body: Record, defaults: Option<Record>, specs: seq<Spec>): Record {
    if defaults.None? then body else DeepMerge(body, Obj(Configured(defaults.value, specs)))
  }

  function Apply(body: Record, defaults: Option<Record>, specs: seq<Spec>): Record {
    Omit(MergedBody(body, defaults, specs), specs)
  }

  /** `orderedSpecs` is the sorted copy of the specs; what is proved holds for every order. */
  method ApplyRequestParamDefaults(body: Record, defaults: Option<Record>, orderedSpecs: seq<Spec>) returns (r: Record)
    ensures r == Apply(body, defaults, orderedSpecs)
  {
    if defaults.None? {
      r := OmitProviderInapplicableParams(body, orderedSpecs);
      return;
    }
    var expanded := ExpandConfiguredParamDefaults(defaults.value, orderedSpecs);
    var merged: Record := map[];
    var i := 0;
    while i < |orderedSpecs|
      invariant i <= |orderedSpecs|
      invariant PickFrom(merged, expanded, orderedSpecs[i..]) == Configured(defaults.value, orderedSpecs)
    {
      var spec := orderedSpecs[i];
      assert orderedSpecs[i..][1..] == orderedSpecs[i + 1..];
      i := i + 1;
      if !Applicable(spec, expanded) {
        continue;
      }
      var value := GetPath(expanded, spec.path);
      if value.None? {
        continue;
      }
      merged := SetPath(merged, spec.path, value.value);
    }
    var full := DeepMergeLoop(body, Obj(merged));
    r := OmitProviderInapplicableParams(full, orderedSpecs);
  }

  lemma {:induction false} SetKeepsFallingOff(m: Record, p: Path, x: Json, q: Path)
    requires !Related(p, q) && FallsOff(Obj(m), q)
    ensures FallsOff(Obj(Set(m, p, x)), q)
    decreases |p|
  {
    assert p == [p[0]] + p[1..] && q == [q[0]] + q[1..];
    if p[0] == q[0] && |p| > 1 {
      if p[0] !in m { assert FallsOff(Obj(map[]), q[1..]); }
      SetKeepsFallingOff(ChildRecord(m, p[0]), p[1..], x, q[1..]);
    }
  }

  lemma {:induction false} PickKeepsFallingOff(out: Record, from: Record, specs: seq<Spec>, q: Path)
    requires UnrelatedToAll(specs, q) && FallsOff(Obj(out), q)
    ensures FallsOff(Obj(PickFrom(out, from, specs)), q)
    decreases |specs|
  {
    if specs != [] {
      assert !Related(specs[0].path, q);
      SetKeepsFallingOff(out, specs[0].path, GetIn(from, specs[0].path).GetOr(Null), q);
      UnrelatedTail(specs, q);
      PickKeepsFallingOff(PickStep(out, from, specs[0]), from, specs[1..], q);
    }
  }

  /** Every body path that no spec path touches comes through unchanged. */
  lemma UnrelatedPathsUntouched(body: Record, defaults: Option<Record>, specs: seq<Spec>, q: Path)
    requires UnrelatedToAll(specs, q)
    ensures GetIn(Apply(body, defaults, specs), q) == GetIn(body, q)
  {
    var full := MergedBody(body, defaults, specs);
    OmitFrame(full, full, specs, q);
    if defaults.Some? {
      var expanded := Expand(defaults.value, specs);
      PickKeepsFallingOff(map[], expanded, specs, q);
      MergeLeavesAlone(body, Obj(Configured(defaults.value, specs)), q);
    }
  }

  /** The result holds no spec path that does not apply under the merged body. */
  lemma InapplicablePathsRemoved(body: Record, defaults: Option<Record>, specs: seq<Spec>, i: nat)
    requires i < |specs| && !Applicable(specs[i], MergedBody(body, defaults, specs))
    ensures !Has(Apply(body, defaults, specs), specs[i].path)
  {
    var full := MergedBody(body, defaults, specs);
    OmitRemoves(full, full, specs, i);
  }

  /** With prefix-free spec paths, what the result holds at a spec path is decided exactly: nothing if
    * the spec does not apply under the merged body; else the configured value merged over the
    * caller's if one is configured and applies; else the caller's. */
  lemma SpecPathsDecided(body: Record, defaults: Record, specs: seq<Spec>, i: nat)
    requires PrefixFree(specs) && i < |specs|
    ensures var (p, expanded) := (specs[i].path, Expand(defaults, specs));
      GetIn(Apply(body, Some(defaults), specs), p) ==
        if !Applicable(specs[i], MergedBody(body, Some(defaults), specs)) then None
        else if Has(expanded, p) && Applicable(specs[i], expanded) then Some(MergeValue(GetIn(body, p), GetIn(expanded, p).value))
        else GetIn(body, p)
  {
    var p, expanded, full := specs[i].path, Expand(defaults, specs), MergedBody(body, Some(defaults), specs);
    if !Applicable(specs[i], full) {
      InapplicablePathsRemoved(body, Some(defaults), specs, i);
    } else {
      forall j | 0 <= j < |specs| && Misplaced(specs[j], full) ensures !Related(specs[j].path, p) {
        assert i != j;
      }
      OmitFrame(full, full, specs, p);
      PickedExactly(map[], expanded, specs, i);
      GetInStep(map[], p);
      if Has(expanded, p) && Applicable(specs[i], expanded) {
        MergeOverrides(body, Obj(Configured(defaults, specs)), p);
      } else {
        NotPickedFallsOff(map[], expanded, specs, i);
        MergeLeavesAlone(body, Obj(Configured(defaults, specs)), p);
      }
    }
  }

  /** The documented example: configuring that thinking is enabled sends the default budget with it,
    * whatever the caller's body holds. */
  lemma ThinkingIsSentComplete(body: Record, params: Record)
    requires GetIn(params, THINKING_TYPE) == Some(Str("enabled")) && !Has(params, BUDGET_TOKENS)
    ensures var sent := Apply(body, Some(params), THINKING);
      GetIn(sent, THINKING_TYPE) == Some(Str("enabled")) && GetIn(sent, BUDGET_TOKENS) == Some(Num(1024.0))
  {
    hide Applicable, PrefixFree, Apply, MergedBody, Expand, Pick;
    var expanded, full := Expand(params, THINKING), MergedBody(body, Some(params), THINKING);
    ThinkingIsPrefixFree();
    ThinkingExample(params);
    BudgetApplies(expanded);
    MergedHoldsConfigured(body, params, THINKING, 0);
    BudgetApplies(full);
    SpecPathsDecided(body, params, THINKING, 0);
    SpecPathsDecided(body, params, THINKING, 1);
  }

  lemma MergedHoldsConfigured(body: Record, defaults: Record, specs: seq<Spec>, i: nat)
    requires PrefixFree(specs) && i < |specs|
    requires var expanded := Expand(defaults, specs); Has(expanded, specs[i].path) && Applicable(specs[i], expanded)
    ensures var p := specs[i].path;
      GetIn(MergedBody(body, Some(defaults), specs), p) == Some(MergeValue(GetIn(body, p), GetIn(Expand(defaults, specs), p).value))
  {
    PickedExactly(map[], Expand(defaults, specs), specs, i);
    MergeOverrides(body, Obj(Configured(defaults, specs)), specs[i].path);
  }

  lemma {:induction false} NotPickedFallsOff(out: Record, from: Record, specs: seq<Spec>, i: nat)
    requires PrefixFree(specs) && i < |specs| && FallsOff(Obj(out), specs[i].path)
    requires !(Has(from, specs[i].path) && Applicable(specs[i], from))
    ensures FallsOff(Obj(PickFrom(out, from, specs)), specs[i].path)
    decreases |specs|
  {
    PrefixFreeTail(specs);
    if i == 0 {
      PickKeepsFallingOff(out, from, specs[1..], specs[0].path);
    } else {
      assert !Related(specs[0].path, specs[i].path);
      SetKeepsFallingOff(out, specs[0].path, GetIn(from, specs[0].path).GetOr(Null), specs[i].path);
      NotPickedFallsOff(PickStep(out, from, specs[0]), from, specs[1..], i - 1);
    }
  }

  /** A record is left alone by omission exactly when no present spec path is inapplicable in it. */
  lemma {:induction false} OmitChangesNothingExactly(m: Record, specs: seq<Spec>)
    ensures Omit(m, specs) == m <==> forall i | 0 <= i < |specs| :: !Misplaced(specs[i], m)
  {
    if i :| 0 <= i < |specs| && Misplaced(specs[i], m) {
      OmitRemoves(m, m, specs, i);
    } else {
      NothingMisplaced(m, m, specs);
    }
  }

  lemma {:induction false} NothingMisplaced(out: Record, params: Record, specs: seq<Spec>)
    requires forall i | 0 <= i < |specs| :: !Misplaced(specs[i], params)
    ensures OmitFrom(out, params, specs) == out
    decreases |specs|
  {
    if specs != [] { NothingMisplaced(out, params, specs[1..]); }
  }

  /** No kept parameter's rules look at or around a removed path. */
  ghost predicate RulesReadAround(m: Record, specs: seq<Spec>) {
    forall i, j | 0 <= i < |specs| && 0 <= j < |specs| && !Misplaced(specs[i], m) && Misplaced(specs[j], m) ::
      forall p: Path | Reads(specs[i], p) :: !Related(specs[j].path, p)
  }

  /** One pass of omission is enough when no kept parameter depends on a removed one. */
  lemma OnePassSuffices(m: Record, specs: seq<Spec>)
    requires RulesReadAround(m, specs)
    ensures Omit(Omit(m, specs), specs) == Omit(m, specs)
    ensures forall i | 0 <= i < |specs| && Has(Omit(m, specs), specs[i].path) :: Applicable(specs[i], Omit(m, specs))
  {
    var once := Omit(m, specs);
    forall i | 0 <= i < |specs| ensures !Misplaced(specs[i], once) {
      var p := specs[i].path;
      if !Has(m, p) {
        OmitNeverCreates(m, m, specs, p);
      } else if !Applicable(specs[i], m) {
        OmitRemoves(m, m, specs, i);
      } else {
        KeptStaysApplicable(m, specs, i);
      }
    }
    OmitChangesNothingExactly(once, specs);
  }

  lemma KeptStaysApplicable(m: Record, specs: seq<Spec>, i: nat)
    requires RulesReadAround(m, specs) && i < |specs| && Applicable(specs[i], m)
    ensures Applicable(specs[i], Omit(m, specs))
  {
    forall p: Path | Reads(specs[i], p) ensures GetIn(m, p) == GetIn(Omit(m, specs), p) {
      OmitFrame(m, m, specs, p);
    }
    ApplicabilityIsLocal(specs[i], m, Omit(m, specs));
  }

  // ----- applicability under a given reading of the paths

  predicate MatchesAllBy(entries: seq<(Path, Condition)>, read: Path -> Option<Json>) {
    forall i | 0 <= i < |entries| :: Meets(entries[i].1, read(entries[i].0))
  }

  predicate MatchesRuleBy(rule: Rule, read: Path -> Option<Json>) {
    exists i | 0 <= i < |rule| :: MatchesAllBy(rule[i], read)
  }

  /** Would the parameter apply if each path held what `read` says? */
  predicate ApplicableBy(spec: Spec, read: Path -> Option<Json>) {
    && (spec.only.Some? ==> MatchesRuleBy(spec.only.value, read))
    && (spec.except.Some? ==> !MatchesRuleBy(spec.except.value, read))
  }

  /** No condition can tell the two apart: they are equal, or both records. */
  predicate Alike(a: Option<Json>, b: Option<Json>) {
    a == b || (a.Some? && b.Some? && a.value.Obj? && b.value.Obj?)
  }

  lemma RuleBy(spec: Spec, rule: Rule, values: Record, read: Path -> Option<Json>)
    requires spec.only == Some(rule) || spec.except == Some(rule)
    requires forall p: Path | Reads(spec, p) :: Alike(GetIn(values, p), read(p))
    ensures MatchesRule(rule, values) == MatchesRuleBy(rule, read)
  {
    forall i | 0 <= i < |rule| ensures MatchesAll(rule[i], values) == MatchesAllBy(rule[i], read) {
      forall j | 0 <= j < |rule[i]| ensures Meets(rule[i][j].1, GetIn(values, rule[i][j].0)) == Meets(rule[i][j].1, read(rule[i][j].0)) {
        assert Reads(spec, rule[i][j].0);
      }
    }
  }

  lemma ApplicableIsBy(spec: Spec, values: Record, read: Path -> Option<Json>)
    requires forall p: Path | Reads(spec, p) :: Alike(GetIn(values, p), read(p))
    ensures Applicable(spec, values) == ApplicableBy(spec, read)
  {
    if spec.only.Some? { RuleBy(spec, spec.only.value, values, read); }
    if spec.except.Some? { RuleBy(spec, spec.except.value, values, read); }
  }

  // ----- what omission leaves, told from its input

  /** The path is, or lies below, a spec path that is present but does not apply. */
  predicate Dropped(m: Record, specs: seq<Spec>, p: Path) {
    exists j | 0 <= j < |specs| :: specs[j].path <= p && Misplaced(specs[j], m)
  }

  /** Something is left at the path: some leaf at or below it is not dropped. */
  ghost predicate Survives(m: Record, specs: seq<Spec>, p: Path) {
    exists q: Path :: p <= q && Leaf(m, q) && !Dropped(m, specs, q)
  }

  /** The input, with every path under which nothing is left read as absent. */
  ghost function Remaining(m: Record, specs: seq<Spec>): Path -> Option<Json> {
    (p: Path) => if Survives(m, specs, p) then GetIn(m, p) else None
  }

  lemma {:induction false} OmitKeepsKinds(out: Record, params: Record, specs: seq<Spec>, q: Path)
    ensures Lessened(GetIn(out, q), GetIn(OmitFrom(out, params, specs), q))
    decreases |specs|
  {
    if specs != [] {
      var next := if Misplaced(specs[0], params) then Delete(out, specs[0].path) else out;
      DeleteKeepsKinds(out, specs[0].path, q);
      OmitKeepsKinds(next, params, specs[1..], q);
    }
  }

  lemma PrefixPresent(m: Record, p: Path, q: Path)
    requires p <= q && Has(m, q)
    ensures Has(m, p)
  {
    assert q[..|p|] == p;
    if !Has(m, p) { MissingStays(Obj(m), q, |p|); }
  }

  /** A path is left by omission exactly when a leaf at or below it lies below no misplaced spec path. */
  lemma OmitKeepsExactly(m: Record, specs: seq<Spec>, p: Path)
    ensures Has(Omit(m, specs), p) <==> Survives(m, specs, p)
  {
    var once := Omit(m, specs);
    if q: Path :| p <= q && Leaf(m, q) && !Dropped(m, specs, q) {
      LeafIsKept(m, specs, q);
      PrefixPresent(once, p, q);
    }
    if Has(once, p) {
      var q := LeafBelow(once, p);
      OmitKeepsKinds(m, m, specs, q);
      assert GetIn(once, q) == GetIn(m, q) && Leaf(m, q);
      forall j | 0 <= j < |specs| && Misplaced(specs[j], m) ensures !(specs[j].path <= q) {
        OmitRemoves(m, m, specs, j);
        if specs[j].path <= q { PrefixPresent(once, specs[j].path, q); }
      }
      assert !Dropped(m, specs, q);
    }
  }

  lemma LeafIsKept(m: Record, specs: seq<Spec>, q: Path)
    requires Leaf(m, q) && !Dropped(m, specs, q)
    ensures GetIn(Omit(m, specs), q) == GetIn(m, q)
  {
    forall j | 0 <= j < |specs| && Misplaced(specs[j], m) ensures !Related(specs[j].path, q) {
      if q <= specs[j].path { NothingBelowLeaf(m, q, specs[j].path); }
    }
    OmitFrame(m, m, specs, q);
  }

  lemma OmitReads(m: Record, specs: seq<Spec>, p: Path)
    ensures Alike(GetIn(Omit(m, specs), p), Remaining(m, specs)(p))
  {
    OmitKeepsExactly(m, specs, p);
    OmitKeepsKinds(m, m, specs, p);
  }

  /** One pass of omission is enough exactly when every parameter that is left still applies once the
    * paths under which nothing is left read as absent: a condition on the input alone. */
  lemma OnePassExactly(m: Record, specs: seq<Spec>)
    ensures Omit(Omit(m, specs), specs) == Omit(m, specs) <==>
      forall i | 0 <= i < |specs| && Survives(m, specs, specs[i].path) :: ApplicableBy(specs[i], Remaining(m, specs))
  {
    var once, read := Omit(m, specs), Remaining(m, specs);
    forall i | 0 <= i < |specs|
      ensures Misplaced(specs[i], once) <==> Survives(m, specs, specs[i].path) && !ApplicableBy(specs[i], read)
    {
      OmitKeepsExactly(m, specs, specs[i].path);
      forall p: Path | Reads(specs[i], p) ensures Alike(GetIn(once, p), read(p)) {
        OmitReads(m, specs, p);
      }
      ApplicableIsBy(specs[i], once, read);
    }
    OmitChangesNothingExactly(once, specs);
  }

  const NEVER: Rule := []
  const BESIDE_A: Rule := [[(["a"], Not(Undefined))]]
  const CHAINED: seq<Spec> := [Spec(["a"], None, Some(NEVER), None), Spec(["b"], None, Some(BESIDE_A), None)]

  /** One pass of omission can leave a path that no longer applies: `a` never applies and is removed,
    * `b` applies only beside `a` and outlives it. */
  lemma OmissionIsOnePass()
    ensures PrefixFree(CHAINED)
    ensures var once := Omit(map["a" := Null, "b" := Null], CHAINED); Misplaced(CHAINED[1], once) && Omit(once, CHAINED) != once
  {
    var body: Record := map["a" := Null, "b" := Null];
    var a: Path, b: Path := ["a"], ["b"];
    GetInStep(body, a);
    GetInStep(body, b);
    assert Meets(BESIDE_A[0][0].1, GetIn(body, BESIDE_A[0][0].0));
    assert MatchesAll(BESIDE_A[0], body);
    assert Misplaced(CHAINED[0], body) && !Misplaced(CHAINED[1], body);
    assert CHAINED[1..] == [CHAINED[1]] && CHAINED[1..][1..] == [];
    var once := Omit(body, CHAINED);
    assert once == OmitFrom(Delete(body, a), body, CHAINED[1..]) == OmitFrom(Delete(body, a), body, CHAINED[1..][1..]);
    assert Delete(body, a) == map["b" := Null];
    GetInStep(once, a);
    GetInStep(once, b);
    assert !Meets(BESIDE_A[0][0].1, GetIn(once, BESIDE_A[0][0].0));
    OmitChangesNothingExactly(once, CHAINED);
  }
}
