/** The snapshot of the parameters in play for one provider attempt. */
module ParamSnapshot {
  import opened Prelude
  import opened JsonPaths
  import opened ParamSpecs

  const NON_KNOB_KEYS: set<string> := {
    "model", "messages", "input", "tools", "functions", "system", "instructions", "prompt",
    "metadata", "user", "stream", "stream_options"
  }
  const UNSAFE_SEGMENTS: set<string> := {"__proto__", "constructor", "prototype"}
  const MAX_KNOB_STRING: nat := 64
  const MAX_KNOB_JSON_CHARS: nat := 2048

  // ----- which raw values are knobs ---------------------------------------------------------------------

  /** `serialized` is the length of a value's JSON text. */
  predicate Fits(v: Json, serialized: Json -> nat)
    decreases v
  {
    match v
    case Null => true
    case Bool(_) => true
    case Num(_) => true
    case Str(s) => |s| <= MAX_KNOB_STRING
    case Arr(items) => serialized(v) <= MAX_KNOB_JSON_CHARS && forall i | 0 <= i < |items| :: Fits(items[i], serialized)
    case Obj(fields) => serialized(v) <= MAX_KNOB_JSON_CHARS && forall k | k in fields :: Fits(fields[k], serialized)
  }

  /** A step down: a field name or an array index. */
  datatype Step = Field(key: string) | Item(index: nat)

  /** The value reached from `v` by the steps, through records and arrays alike. */
  function Descend(v: Json, steps: seq<Step>): Option<Json>
    decreases |steps|
  {
    if steps == [] then Some(v)
    else match steps[0]
      case Field(k) => if v.Obj? && k in v.fields then Descend(v.fields[k], steps[1..]) else None
      case Item(i) => if v.Arr? && i < |v.items| then Descend(v.items[i], steps[1..]) else None
  }

  /** A value fits exactly when every string in it is short and every structure in it serializes
    * small, at every depth. */
  lemma {:induction false} FitsAtEveryDepth(v: Json, serialized: Json -> nat)
    ensures Fits(v, serialized) <==> forall steps :: SmallAt(v, steps, serialized)
    decreases v
  {
    assert SmallAt(v, [], serialized) == SmallHere(v, serialized);
    if v.Obj? {
      forall k | k in v.fields ensures Fits(v.fields[k], serialized) <==> forall steps :: SmallAt(v, [Field(k)] + steps, serialized) {
        FitsAtEveryDepth(v.fields[k], serialized);
        DescendInto(v, Field(k), v.fields[k], serialized);
      }
    } else if v.Arr? {
      forall i: nat | i < |v.items| ensures Fits(v.items[i], serialized) <==> forall steps :: SmallAt(v, [Item(i)] + steps, serialized) {
        FitsAtEveryDepth(v.items[i], serialized);
        DescendInto(v, Item(i), v.items[i], serialized);
      }
    }
    if Fits(v, serialized) {
      forall steps ensures SmallAt(v, steps, serialized) {
        if steps != [] { assert steps == [steps[0]] + steps[1..]; }
      }
    }
  }

  lemma DescendInto(v: Json, step: Step, child: Json, serialized: Json -> nat)
    requires Descend(v, [step]) == Some(child)
    ensures (forall steps :: SmallAt(child, steps, serialized)) <==> (forall steps :: SmallAt(v, [step] + steps, serialized))
  {
    forall steps ensures SmallAt(child, steps, serialized) == SmallAt(v, [step] + steps, serialized) {
      assert ([step] + steps)[1..] == steps && [step][1..] == [];
    }
  }

  predicate SmallHere(v: Json, serialized: Json -> nat) {
    match v
    case Str(s) => |s| <= MAX_KNOB_STRING
    case Arr(_) => serialized(v) <= MAX_KNOB_JSON_CHARS
    case Obj(_) => serialized(v) <= MAX_KNOB_JSON_CHARS
    case _ => true
  }

  predicate SmallAt(v: Json, steps: seq<Step>, serialized: Json -> nat) {
    var at := Descend(v, steps);
    at.Some? ==> SmallHere(at.value, serialized)
  }

  // ----- the spec walk -------------------------------------------------------------------------------------

  /** The configured value, else the body's, else an applicable default. */
  function WalkStep(out: Record, spec: Spec, expanded: Option<Record>, body: Record): Record {
    if expanded.Some? && Has(expanded.value, spec.path) then Set(out, spec.path, GetIn(expanded.value, spec.path).value)
    else if Has(body, spec.path) then Set(out, spec.path, GetIn(body, spec.path).value)
    else if spec.default.Some? && Applicable(spec, out) then Set(out, spec.path, spec.default.value)
    else out
  }

  function WalkFrom(out: Record, specs: seq<Spec>, expanded: Option<Record>, body: Record): Record
    decreases |specs|
  {
    if specs == [] then out else WalkFrom(WalkStep(out, specs[0], expanded, body), specs[1..], expanded, body)
  }

  function Expanded(modelParams: Option<Record>, specs: seq<Spec>): Option<Record> {
    if modelParams.Some? then Some(Expand(modelParams.value, specs)) else None
  }

  function Walk(specs: seq<Spec>, modelParams: Option<Record>, body: Record): Record {
    WalkFrom(map[], specs, Expanded(modelParams, specs), body)
  }

  /** A knob the specs do not know, taken from the body as it is. */
  predicate SpeclessKnob(body: Record, specs: seq<Spec>, serialized: Json -> nat, key: string) {
    key in body && !IsRoot(specs, key) && key !in NON_KNOB_KEYS && '.' !in key && Fits(body[key], serialized)
  }

  /** Writing under such a key throws. */
  predicate IllegalKey(key: string) {
    key == "" || key in UNSAFE_SEGMENTS
  }

  datatype Result = Thrown(key: string) | Taken(params: Option<Record>)

  function SpeclessKnobs(body: Record, specs: seq<Spec>, serialized: Json -> nat): Record {
    map k | k in body && SpeclessKnob(body, specs, serialized, k) :: body[k]
  }

  /** The knobs among the keys that are not in `left`. */
  function KnobsOutside(body: Record, specs: seq<Spec>, serialized: Json -> nat, left: set<string>): Record {
    map k | k in body && k !in left && SpeclessKnob(body, specs, serialized, k) :: body[k]
  }

  lemma KnobsStep(body: Record, specs: seq<Spec>, serialized: Json -> nat, left: set<string>, key: string)
    requires key in left && key in body
    ensures KnobsOutside(body, specs, serialized, left - {key}) ==
      if SpeclessKnob(body, specs, serialized, key) then KnobsOutside(body, specs, serialized, left)[key := body[key]]
      else KnobsOutside(body, specs, serialized, left)
  {
    hide Fits, IsRoot;
    var before, after := KnobsOutside(body, specs, serialized, left), KnobsOutside(body, specs, serialized, left - {key});
    forall k | k in body ensures k in after <==> k in before || (k == key && SpeclessKnob(body, specs, serialized, key)) {}
  }

  lemma SetOnTop(below: Record, top: Record, key: string, v: Json)
    ensures Set(below + top, [key], v) == below + top[key := v]
  {
  }

  /** The loop over the body's entries, in any order. */
  method AddSpeclessKnobs(effective: Record, body: Record, specs: seq<Spec>, serialized: Json -> nat) returns (r: Result)
    ensures r.Thrown? <==> exists k :: SpeclessKnob(body, specs, serialized, k) && IllegalKey(k)
    ensures r.Taken? ==> r.params == Some(effective + SpeclessKnobs(body, specs, serialized))
  {
    var out := effective;
    var keys := body.Keys;
    assert out == effective + KnobsOutside(body, specs, serialized, keys);
    while keys != {}
      invariant keys <= body.Keys
      invariant forall k | SpeclessKnob(body, specs, serialized, k) && k !in keys :: !IllegalKey(k)
      invariant out == effective + KnobsOutside(body, specs, serialized, keys)
    {
      hide KnobsOutside, Fits, IsRoot, Set;
      var key :| key in keys;
      KnobsStep(body, specs, serialized, keys, key);
      SetOnTop(effective, KnobsOutside(body, specs, serialized, keys), key, body[key]);
      keys := keys - {key};
      if IsRoot(specs, key) || key in NON_KNOB_KEYS { continue; }
      if '.' in key { continue; }
      if !Fits(body[key], serialized) { continue; }
      if IllegalKey(key) {
        assert SpeclessKnob(body, specs, serialized, key);
        return Thrown(key);
      }
      out := SetPath(out, [key], body[key]);
    }
    assert KnobsOutside(body, specs, serialized, {}) == SpeclessKnobs(body, specs, serialized);
    return Taken(Some(out));
  }

  method SnapshotRequestParams(body: Record, modelParams: Option<Record>, orderedSpecs: seq<Spec>, serialized: Json -> nat)
    returns (r: Result)
    ensures r.Thrown? <==>
      exists k :: SpeclessKnob(body, orderedSpecs, serialized, k) && k in {"", "__proto__", "constructor", "prototype"}
    ensures r.Taken? ==>
      var snapshot := Omit(Walk(orderedSpecs, modelParams, body), orderedSpecs) + SpeclessKnobs(body, orderedSpecs, serialized);
      r.params == if snapshot == map[] then None else Some(snapshot)
  {
    hide Set, Applicable, SpeclessKnob, SpeclessKnobs, Omit, Expand;
    var expanded := None;
    if modelParams.Some? {
      var e := ExpandConfiguredParamDefaults(modelParams.value, orderedSpecs);
      expanded := Some(e);
    }
    var out: Record := map[];
    var i := 0;
    while i < |orderedSpecs|
      invariant i <= |orderedSpecs|
      invariant WalkFrom(out, orderedSpecs[i..], expanded, body) == Walk(orderedSpecs, modelParams, body)
    {
      var spec := orderedSpecs[i];
      assert orderedSpecs[i..][1..] == orderedSpecs[i + 1..];
      i := i + 1;
      if expanded.Some? {
        var configured := GetPath(expanded.value, spec.path);
        if configured.Some? {
          out := SetPath(out, spec.path, configured.value);
          continue;
        }
      }
      var sent := GetPath(body, spec.path);
      if sent.Some? {
        out := SetPath(out, spec.path, sent.value);
        continue;
      }
      if spec.default.Some? && Applicable(spec, out) {
        out := SetPath(out, spec.path, spec.default.value);
      }
    }
    var kept := OmitProviderInapplicableParams(out, orderedSpecs);
    r := AddSpeclessKnobs(kept, body, orderedSpecs, serialized);
    if r == Taken(Some(map[])) {
      r := Taken(None);
    }
  }

  // ----- what the snapshot says -----------------------------------------------------------------------------

  /** The walk only writes under spec roots. */
  lemma {:induction false} WalkStaysUnderRoots(out: Record, specs: seq<Spec>, expanded: Option<Record>, body: Record, key: string)
    requires !IsRoot(specs, key) && key !in out
    ensures key !in WalkFrom(out, specs, expanded, body)
    decreases |specs|
  {
    if specs != [] {
      assert specs[0].path[0] != key;
      assert !IsRoot(specs[1..], key) by {
        forall i | 0 <= i < |specs[1..]| ensures specs[1..][i].path[0] != key { assert specs[i + 1].path[0] != key; }
      }
      WalkStaysUnderRoots(WalkStep(out, specs[0], expanded, body), specs[1..], expanded, body, key);
    }
  }

  lemma {:induction false} OmitStaysUnderRoots(out: Record, params: Record, specs: seq<Spec>, key: string)
    requires key !in out
    ensures key !in OmitFrom(out, params, specs)
  {
    GetInStep(out, [key]);
    GetInStep(OmitFrom(out, params, specs), [key]);
    OmitNeverCreates(out, params, specs, [key]);
  }

  /** Under spec roots the snapshot is the walk without inapplicable paths; everywhere else it holds
    * exactly the body's knobs, unchanged. */
  lemma SnapshotCharacterised(body: Record, modelParams: Option<Record>, specs: seq<Spec>, serialized: Json -> nat, key: string)
    ensures var kept, knobs := Omit(Walk(specs, modelParams, body), specs), SpeclessKnobs(body, specs, serialized);
      && (IsRoot(specs, key) ==> (key in kept + knobs <==> key in kept) && (key in kept ==> (kept + knobs)[key] == kept[key]))
      && (!IsRoot(specs, key) ==> (key in kept + knobs <==> SpeclessKnob(body, specs, serialized, key))
                                  && (key in kept + knobs ==> (kept + knobs)[key] == body[key]))
  {
    if !IsRoot(specs, key) {
      WalkStaysUnderRoots(map[], specs, Expanded(modelParams, specs), body, key);
      var walk := Walk(specs, modelParams, body);
      OmitStaysUnderRoots(walk, walk, specs, key);
    }
  }

  lemma {:induction false} WalkFrame(out: Record, specs: seq<Spec>, expanded: Option<Record>, body: Record, q: seq<string>)
    requires UnrelatedToAll(specs, q)
    ensures GetIn(WalkFrom(out, specs, expanded, body), q) == GetIn(out, q)
    decreases |specs|
  {
    if specs != [] {
      assert !Related(specs[0].path, q);
      WalkStepFrame(out, specs[0], expanded, body, q);
      UnrelatedTail(specs, q);
      WalkFrame(WalkStep(out, specs[0], expanded, body), specs[1..], expanded, body, q);
    }
  }

  lemma WalkStepFrame(out: Record, spec: Spec, expanded: Option<Record>, body: Record, q: seq<string>)
    requires !Related(spec.path, q)
    ensures GetIn(WalkStep(out, spec, expanded, body), q) == GetIn(out, q)
  {
    if expanded.Some? { SetFrame(out, spec.path, GetIn(expanded.value, spec.path).GetOr(Null), q); }
    SetFrame(out, spec.path, GetIn(body, spec.path).GetOr(Null), q);
    SetFrame(out, spec.path, spec.default.GetOr(Null), q);
  }

  /** With prefix-free paths the walk's value at a spec path is the configured one if there is one,
    * else the caller's, else the default exactly when the spec applies in the record built so far. */
  lemma {:induction false} WalkPrecedence(out: Record, specs: seq<Spec>, expanded: Option<Record>, body: Record, i: nat)
    requires PrefixFree(specs) && i < |specs|
    requires !Has(out, specs[i].path)
    ensures var p := specs[i].path; var v := GetIn(WalkFrom(out, specs, expanded, body), p);
      if expanded.Some? && Has(expanded.value, p) then v == GetIn(expanded.value, p)
      else if Has(body, p) then v == GetIn(body, p)
      else if Applicable(specs[i], WalkFrom(out, specs[..i], expanded, body)) then v == specs[i].default
      else v == None
    decreases |specs|
  {
    PrefixFreeTail(specs);
    var p, next := specs[i].path, WalkStep(out, specs[0], expanded, body);
    if i > 0 { assert specs[..i][1..] == specs[1..][..i - 1]; }
    if i == 0 {
      WalkFrame(next, specs[1..], expanded, body, p);
      if expanded.Some? { GetAfterSet(out, p, GetIn(expanded.value, p).GetOr(Null)); }
      GetAfterSet(out, p, GetIn(body, p).GetOr(Null));
      GetAfterSet(out, p, specs[0].default.GetOr(Null));
    } else {
      assert !Related(specs[0].path, p);
      WalkStepFrame(out, specs[0], expanded, body, p);
      WalkPrecedence(next, specs[1..], expanded, body, i - 1);
    }
  }

  /** With prefix-free paths, a spec path is in the snapshot exactly when the walk recorded it and it
    * applies among what the walk recorded; its value is the walk's. */
  lemma SnapshotAtSpecPath(body: Record, modelParams: Option<Record>, specs: seq<Spec>, i: nat)
    requires PrefixFree(specs) && i < |specs|
    ensures var walk := Walk(specs, modelParams, body);
      GetIn(Omit(walk, specs), specs[i].path) == if Applicable(specs[i], walk) then GetIn(walk, specs[i].path) else None
  {
    var walk := Walk(specs, modelParams, body);
    if Applicable(specs[i], walk) {
      forall j | 0 <= j < |specs| && Misplaced(specs[j], walk) ensures !Related(specs[j].path, specs[i].path) {
        assert i != j;
      }
      OmitFrame(walk, walk, specs, specs[i].path);
    } else {
      OmitRemoves(walk, walk, specs, i);
    }
  }

  /** The limits, written out: no string longer than 64 characters and no structure serialized to more
    * than 2048, at any depth; numbers, booleans and null always fit. */
  lemma FitsExactly(v: Json, serialized: Json -> nat)
    ensures Fits(v, serialized) <==>
      forall steps, x | Descend(v, steps) == Some(x) :: (x.Str? ==> |x.s| <= 64) && (x.Arr? || x.Obj? ==> serialized(x) <= 2048)
  {
    hide Fits, Descend;
    FitsAtEveryDepth(v, serialized);
    if forall steps :: SmallAt(v, steps, serialized) {
      forall steps, x | Descend(v, steps) == Some(x) ensures (x.Str? ==> |x.s| <= 64) && (x.Arr? || x.Obj? ==> serialized(x) <= 2048) {
        assert SmallAt(v, steps, serialized);
      }
    } else {
      var steps :| !SmallAt(v, steps, serialized);
      assert Descend(v, steps) == Some(Descend(v, steps).value);
    }
  }

  /** Outside the spec roots the snapshot holds a key exactly when the body does, no spec path starts with
    * it, it is not one of the denied keys and has no dot, and its value fits. */
  lemma KnobsExactly(body: Record, modelParams: Option<Record>, specs: seq<Spec>, serialized: Json -> nat, key: string)
    requires forall i | 0 <= i < |specs| :: specs[i].path[0] != key
    ensures var snapshot := Omit(Walk(specs, modelParams, body), specs) + SpeclessKnobs(body, specs, serialized);
      && (key in snapshot <==> key in body && key !in NON_KNOB_KEYS && (forall i | 0 <= i < |key| :: key[i] != '.') && Fits(body[key], serialized))
      && (key in snapshot ==> snapshot[key] == body[key])
  {
    hide Fits, Omit, Walk, SpeclessKnobs;
    SnapshotCharacterised(body, modelParams, specs, serialized, key);
  }

  /** With prefix-free paths, what the walk records at a spec path, from the parameters themselves: their
    * expansion if it has a value there, else what the caller sent, else the default exactly when the spec
    * applies in the record built so far. */
  lemma SnapshotPrecedence(body: Record, modelParams: Option<Record>, specs: seq<Spec>, i: nat)
    requires PrefixFree(specs) && i < |specs|
    ensures var p, v := specs[i].path, GetIn(Walk(specs, modelParams, body), specs[i].path);
      && (modelParams.Some? && Has(Expand(modelParams.value, specs), p) ==> v == GetIn(Expand(modelParams.value, specs), p))
      && (modelParams.Some? && Has(modelParams.value, p) ==> v == GetIn(modelParams.value, p))
      && (!(modelParams.Some? && Has(Expand(modelParams.value, specs), p)) ==>
            v == if Has(body, p) then GetIn(body, p)
                 else if Applicable(specs[i], WalkFrom(map[], specs[..i], Expanded(modelParams, specs), body)) then specs[i].default
                 else None)
  {
    GetInStep(map[], specs[i].path);
    WalkPrecedence(map[], specs, Expanded(modelParams, specs), body, i);
    if modelParams.Some? { ExpandedExactly(modelParams.value, specs, i); }
  }
}
