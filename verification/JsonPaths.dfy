/** Nested JSON records and dotted paths into them: read, write and delete. */
module JsonPaths {
  import opened Prelude

  datatype Json =
    | Null
    | Bool(b: bool)
    | Num(n: real)
    | Str(s: string)
    | Arr(items: seq<Json>)
    | Obj(fields: map<string, Json>)

  type Record = map<string, Json>

  /** A path after splitting at its dots. */
  type Path = p: seq<string> | |p| > 0 witness ["x"]

  /** The value at `p`; the empty sequence names the value itself. */
  function Get(v: Json, p: seq<string>): Option<Json>
    decreases |p|
  {
    if p == [] then Some(v)
    else if v.Obj? && p[0] in v.fields then Get(v.fields[p[0]], p[1..])
    else None
  }

  function GetIn(m: Record, p: seq<string>): Option<Json> {
    Get(Obj(m), p)
  }

  predicate Has(m: Record, p: seq<string>) {
    GetIn(m, p).Some?
  }

  /** One of the two paths lies on the way to the other. */
  predicate Related(p: seq<string>, q: seq<string>) {
    p <= q || q <= p
  }

  // ----- reading ------------------------------------------------------------------------------------

  lemma GetInStep(m: Record, p: Path)
    ensures |p| == 1 ==> GetIn(m, p) == (if p[0] in m then Some(m[p[0]]) else None)
    ensures |p| > 1 ==> GetIn(m, p) == (if p[0] in m && m[p[0]].Obj? then GetIn(m[p[0]].fields, p[1..]) else None)
  {
    if p[0] in m {
      var rest := Get(m[p[0]], p[1..]);
      if |p| > 1 && m[p[0]].Obj? { assert m[p[0]] == Obj(m[p[0]].fields); }
    }
  }

  lemma {:induction false} GetStep(v: Json, p: seq<string>, i: nat)
    requires i < |p|
    ensures Get(v, p[..i + 1]) ==
      match Get(v, p[..i])
      case Some(u) => if u.Obj? && p[i] in u.fields then Some(u.fields[p[i]]) else None
      case None => None
    decreases |p|
  {
    if i == 0 {
      assert p[..1][1..] == [];
    } else if v.Obj? && p[0] in v.fields {
      GetStep(v.fields[p[0]], p[1..], i - 1);
      assert p[..i + 1][1..] == p[1..][..i] && p[..i][1..] == p[1..][..i - 1];
    }
  }

  lemma {:induction false} MissingStays(v: Json, p: seq<string>, i: nat)
    requires i <= |p| && Get(v, p[..i]).None?
    ensures Get(v, p).None?
    decreases |p|
  {
    if i > 0 && v.Obj? && p[0] in v.fields {
      assert p[..i][1..] == p[1..][..i - 1];
      MissingStays(v.fields[p[0]], p[1..], i - 1);
    }
  }

  method GetPath(values: Record, p: Path) returns (r: Option<Json>)
    ensures r == GetIn(values, p)
  {
    var current := Obj(values);
    var i := 0;
    while i < |p|
      invariant i <= |p| && GetIn(values, p[..i]) == Some(current)
    {
      GetStep(Obj(values), p, i);
      if !current.Obj? || p[i] !in current.fields {
        MissingStays(Obj(values), p, i + 1);
        return None;
      }
      current := current.fields[p[i]];
      i := i + 1;
    }
    assert p[..i] == p;
    return Some(current);
  }

  // ----- writing ------------------------------------------------------------------------------------

  /** The record that writing will descend into below `key`: a non-record there is replaced. */
  function ChildRecord(m: Record, key: string): Record {
    if key in m && m[key].Obj? then m[key].fields else map[]
  }

  function Set(m: Record, p: Path, x: Json): Record
    decreases |p|
  {
    if |p| == 1 then m[p[0] := x]
    else m[p[0] := Obj(Set(ChildRecord(m, p[0]), p[1..], x))]
  }

  /** Walks down, remembering the records on the way, and writes them back on the way up. */
  method SetPath(values: Record, p: Path, x: Json) returns (out: Record)
    ensures out == Set(values, p, x)
  {
    var records := [values];
    while |records| < |p|
      invariant 0 < |records| <= |p| && records[0] == values
      invariant forall j: nat | j < |records| - 1 :: DescendsAt(records, p, j)
    {
      var i := |records| - 1;
      var current := records[i];
      var child := if p[i] in current && current[p[i]].Obj? then current[p[i]].fields else map[];
      ghost var before := records;
      records := records + [child];
      forall j: nat | j < |records| - 1 ensures DescendsAt(records, p, j) {
        assert j < i ==> DescendsAt(before, p, j);
      }
    }
    out := WriteBack(records, p, x);
  }

  /** Each record is the one that writing descends into below the one before it. */
  ghost predicate DescendsAt(records: seq<Record>, p: seq<string>, j: nat)
    requires j + 1 < |records| <= |p|
  {
    records[j + 1] == ChildRecord(records[j], p[j])
  }

  method WriteBack(records: seq<Record>, p: Path, x: Json) returns (out: Record)
    requires |records| == |p| && forall j: nat | j < |records| - 1 :: DescendsAt(records, p, j)
    ensures out == Set(records[0], p, x)
  {
    var i := |p| - 1;
    out := records[i][p[i] := x];
    while i > 0
      invariant i < |p| && out == Set(records[i], p[i..], x)
    {
      i := i - 1;
      assert DescendsAt(records, p, i);
      assert p[i..][1..] == p[i + 1..];
      out := records[i][p[i] := Obj(out)];
    }
    assert p[0..] == p;
  }

  lemma {:induction false} GetAfterSet(m: Record, p: Path, x: Json)
    ensures GetIn(Set(m, p, x), p) == Some(x)
    decreases |p|
  {
    GetInStep(Set(m, p, x), p);
    if |p| > 1 {
      GetAfterSet(ChildRecord(m, p[0]), p[1..], x);
    }
  }

  /** Writing at `p` changes nothing at any path that is neither a prefix nor an extension of it. */
  lemma {:induction false} SetFrame(m: Record, p: Path, x: Json, q: seq<string>)
    requires !Related(p, q)
    ensures GetIn(Set(m, p, x), q) == GetIn(m, q)
    decreases |p|
  {
    assert p == [p[0]] + p[1..] && q == [q[0]] + q[1..];
    GetInStep(m, q);
    GetInStep(Set(m, p, x), q);
    if p[0] == q[0] && |p| > 1 {
      if p[0] !in m || !m[p[0]].Obj? { GetInStep(map[], q[1..]); }
      SetFrame(ChildRecord(m, p[0]), p[1..], x, q[1..]);
    }
  }

  // ----- deleting -----------------------------------------------------------------------------------

  /** The record that holds the last segment of `p` exists. */
  predicate ParentExists(m: Record, p: Path)
    decreases |p|
  {
    |p| == 1 || (p[0] in m && m[p[0]].Obj? && ParentExists(m[p[0]].fields, p[1..]))
  }

  /** Removes `p`, and every record on the way to it that this leaves empty. */
  function Prune(m: Record, p: Path): Record
    requires ParentExists(m, p)
    decreases |p|
  {
    if |p| == 1 then m - {p[0]}
    else
      var child := Prune(m[p[0]].fields, p[1..]);
      if child == map[] then m - {p[0]} else m[p[0] := Obj(child)]
  }

  function Delete(m: Record, p: Path): Record {
    if ParentExists(m, p) then Prune(m, p) else m
  }

  /** The records on the way: each holds the next one under its segment of `p`. */
  ghost predicate Chain(records: seq<Record>, p: seq<string>) {
    && 0 < |records| <= |p|
    && forall j: nat | j < |records| - 1 :: LinkAt(records, p, j)
  }

  ghost predicate LinkAt(records: seq<Record>, p: seq<string>, j: nat)
    requires j < |records| - 1 < |p|
  {
    p[j] in records[j] && records[j][p[j]] == Obj(records[j + 1])
  }

  lemma ChainExtends(records: seq<Record>, p: Path, next: Record)
    requires Chain(records, p) && |records| < |p|
    requires var i := |records| - 1; p[i] in records[i] && records[i][p[i]] == Obj(next)
    ensures Chain(records + [next], p)
  {
    var longer := records + [next];
    forall j: nat | j < |longer| - 1 ensures LinkAt(longer, p, j) {
      if j < |records| - 1 { assert LinkAt(records, p, j); }
    }
  }

  lemma {:induction false} ChainReaches(records: seq<Record>, p: Path, i: nat)
    requires Chain(records, p) && i < |records|
    ensures ParentExists(records[0], p) == ParentExists(records[i], p[i..])
  {
    if i == 0 {
      assert p[0..] == p;
    } else {
      ChainReaches(records, p, i - 1);
      assert p[i - 1..][1..] == p[i..] && LinkAt(records, p, i - 1);
    }
  }

  method DeletePath(values: Record, p: Path) returns (out: Record)
    ensures out == Delete(values, p)
  {
    var records := [values];
    var i := 0;
    while i < |p| - 1
      invariant 0 <= i <= |p| - 1 && |records| == i + 1
      invariant Chain(records, p) && records[0] == values
    {
      ChainReaches(records, p, i);
      var current := records[i];
      if p[i] !in current || !current[p[i]].Obj? {
        return values;
      }
      ChainExtends(records, p, current[p[i]].fields);
      records := records + [current[p[i]].fields];
      i := i + 1;
    }
    ChainReaches(records, p, i);
    out := records[i] - {p[i]};
    while i > 0
      invariant 0 <= i <= |p| - 1 && ParentExists(records[i], p[i..])
      invariant out == Prune(records[i], p[i..])
    {
      i := i - 1;
      ChainReaches(records, p, i);
      assert p[i..][1..] == p[i + 1..] && LinkAt(records, p, i);
      out := if out == map[] then records[i] - {p[i]} else records[i][p[i] := Obj(out)];
    }
    assert p[0..] == p;
  }

  lemma {:induction false} DeletedIsAbsent(m: Record, p: Path)
    ensures !Has(Delete(m, p), p)
    decreases |p|
  {
    GetInStep(m, p);
    GetInStep(Delete(m, p), p);
    if |p| > 1 && p[0] in m && m[p[0]].Obj? {
      DeletedIsAbsent(m[p[0]].fields, p[1..]);
    }
  }

  /** Deleting at `p` changes nothing at any path that is neither a prefix nor an extension of it. */
  lemma {:induction false} DeleteFrame(m: Record, p: Path, q: seq<string>)
    requires !Related(p, q)
    ensures GetIn(Delete(m, p), q) == GetIn(m, q)
    decreases |p|
  {
    assert p == [p[0]] + p[1..] && q == [q[0]] + q[1..];
    GetInStep(m, q);
    GetInStep(Delete(m, p), q);
    if p[0] == q[0] && |p| > 1 && ParentExists(m, p) {
      GetInStep(map[], q[1..]);
      DeleteFrame(m[p[0]].fields, p[1..], q[1..]);
    }
  }

  /** Deleting an existing path leaves no empty record on the way to it. */
  lemma {:induction false} NoEmptyAncestor(m: Record, p: Path, i: nat)
    requires Has(m, p) && 0 < i < |p|
    ensures GetIn(Delete(m, p), p[..i]) != Some(Obj(map[]))
    decreases |p|
  {
    HasParent(m, p);
    GetInStep(m, p);
    GetInStep(Delete(m, p), p[..i]);
    var child := Prune(m[p[0]].fields, p[1..]);
    if i == 1 {
      assert p[..1][1..] == [];
    } else {
      NoEmptyAncestor(m[p[0]].fields, p[1..], i - 1);
      assert p[..i][1..] == p[1..][..i - 1];
    }
  }

  lemma {:induction false} HasParent(m: Record, p: Path)
    requires Has(m, p)
    ensures ParentExists(m, p)
    decreases |p|
  {
    if |p| > 1 {
      GetInStep(m, p);
      HasParent(m[p[0]].fields, p[1..]);
    }
  }

  /** Deleting an absent path changes the record exactly when the last record on the way is empty
    * and is not the root. */
  lemma {:induction false} DeleteAbsent(m: Record, p: Path)
    requires !Has(m, p)
    ensures Delete(m, p) == m <==> |p| == 1 || GetIn(m, p[..|p| - 1]) != Some(Obj(map[]))
    decreases |p|
  {
    GetInStep(m, p);
    if |p| > 1 { GetInStep(m, p[..|p| - 1]); }
    if |p| == 1 {
      assert m - {p[0]} == m;
    } else if p[0] in m && m[p[0]].Obj? {
      var child := m[p[0]].fields;
      DeleteAbsent(child, p[1..]);
      assert p[..|p| - 1][1..] == p[1..][..|p| - 2];
      GetInStep(child, p[1..]);
      if |p| > 2 {
        assert ParentExists(m, p) ==> p[1] in child;
        if Delete(child, p[1..]) == child { assert m[p[0] := Obj(child)] == m; }
      }
    }
  }

  /** Nothing lies below the path: it holds a scalar, an array or an empty record. */
  predicate Leaf(m: Record, q: Path) {
    match GetIn(m, q)
    case None => false
    case Some(v) => v.Obj? ==> v.fields == map[]
  }

  lemma {:induction false} LeafBelow(m: Record, p: Path) returns (q: Path)
    requires Has(m, p)
    ensures p <= q && Leaf(m, q)
    decreases GetIn(m, p).value
  {
    var v := GetIn(m, p).value;
    q := p;
    if v.Obj? && v.fields != map[] {
      var k :| k in v.fields;
      GetStep(Obj(m), p + [k], |p|);
      assert (p + [k])[..|p|] == p && (p + [k])[..|p| + 1] == p + [k];
      q := LeafBelow(m, p + [k]);
    }
  }

  lemma {:induction false} NothingBelowLeaf(m: Record, q: Path, p: Path)
    requires Leaf(m, q) && q <= p && Has(m, p)
    ensures p == q
    decreases |q|
  {
    GetInStep(m, q);
    GetInStep(m, p);
    EmptyHasNothing();
    if |q| > 1 {
      NothingBelowLeaf(m[q[0]].fields, q[1..], p[1..]);
      assert p == [p[0]] + p[1..] && q == [q[0]] + q[1..];
    }
  }

  lemma EmptyHasNothing()
    ensures forall p: Path :: !Has(map[], p)
  {
    forall p: Path ensures !Has(map[], p) { GetInStep(map[], p); }
  }

  /** `b` is what `a` was, or gone, or a record that has lost some but not all of its contents. */
  predicate Lessened(a: Option<Json>, b: Option<Json>) {
    b.Some? ==> a == b || (a.Some? && a.value.Obj? && b.value.Obj? && b.value.fields != map[])
  }

  lemma {:induction false} DeleteKeepsKinds(m: Record, p: Path, q: Path)
    ensures Lessened(GetIn(m, q), GetIn(Delete(m, p), q))
    decreases |p|
  {
    GetInStep(m, q);
    GetInStep(Delete(m, p), q);
    if |p| > 1 && |q| > 1 && p[0] == q[0] && ParentExists(m, p) {
      DeleteKeepsKinds(m[p[0]].fields, p[1..], q[1..]);
    }
  }

  // ----- delete undoes set ----------------------------------------------------------------------------

  /** Every proper prefix of `p` that is present is a non-empty record. */
  predicate OpenWay(m: Record, p: Path)
    decreases |p|
  {
    |p| == 1 || p[0] !in m
    || (m[p[0]].Obj? && m[p[0]].fields != map[] && OpenWay(m[p[0]].fields, p[1..]))
  }

  lemma {:induction false} OpenWayMeaning(m: Record, p: Path)
    ensures OpenWay(m, p) <==> forall i | 0 < i < |p| :: WayIsOpenAt(m, p, i)
    decreases |p|
  {
    if |p| > 1 && p[0] in m {
      assert p[..1][1..] == [];
      assert p[..1] == [p[0]] && GetIn(m, p[..1]) == Get(m[p[0]], []);
      if m[p[0]].Obj? {
        var child := m[p[0]].fields;
        OpenWayMeaning(child, p[1..]);
        forall i | 1 < i < |p| ensures WayIsOpenAt(m, p, i) == WayIsOpenAt(child, p[1..], i - 1) {
          assert p[..i][1..] == p[1..][..i - 1];
        }
        if forall i | 0 < i < |p| :: WayIsOpenAt(m, p, i) {
          forall i | 0 < i < |p[1..]| ensures WayIsOpenAt(child, p[1..], i) { assert WayIsOpenAt(m, p, i + 1); }
        }
        if OpenWay(m, p) {
          forall i | 0 < i < |p| ensures WayIsOpenAt(m, p, i) {}
        }
      }
      assert WayIsOpenAt(m, p, 1) <==> m[p[0]].Obj? && m[p[0]].fields != map[];
    } else if |p| > 1 {
      forall i | 0 < i < |p| ensures WayIsOpenAt(m, p, i) {}
    }
  }

  predicate WayIsOpenAt(m: Record, p: Path, i: nat)
    requires 0 < i < |p|
  {
    match GetIn(m, p[..i])
    case None => true
    case Some(v) => v.Obj? && v.fields != map[]
  }

  lemma {:induction false} SetMakesParent(m: Record, p: Path, x: Json)
    ensures ParentExists(Set(m, p, x), p)
    decreases |p|
  {
    if |p| > 1 {
      SetMakesParent(ChildRecord(m, p[0]), p[1..], x);
    }
  }

  lemma {:induction false} EmptyAfterUndo(p: Path, x: Json)
    ensures Delete(Set(map[], p, x), p) == map[]
    decreases |p|
  {
    SetMakesParent(map[], p, x);
    if |p| > 1 {
      EmptyAfterUndo(p[1..], x);
      SetMakesParent(map[], p[1..], x);
    }
  }

  /** Deleting what was just set restores the record exactly when the path was absent and no proper
    * prefix of it held an empty record or a non-record. */
  lemma {:induction false} DeleteUndoesSet(m: Record, p: Path, x: Json)
    ensures Delete(Set(m, p, x), p) == m <==> !Has(m, p) && OpenWay(m, p)
    decreases |p|
  {
    SetMakesParent(m, p, x);
    if |p| == 1 {
      GetInStep(m, p);
      if p[0] in m { assert p[0] !in Delete(Set(m, p, x), p); }
      else { assert m[p[0] := x] - {p[0]} == m; }
    } else {
      var child := ChildRecord(m, p[0]);
      SetMakesParent(child, p[1..], x);
      DeleteUndoesSet(child, p[1..], x);
      GetInStep(m, p);
      GetInStep(child, p[1..]);
      var undone := Delete(Set(child, p[1..], x), p[1..]);
      if p[0] in m && m[p[0]].Obj? {
        if undone == child && child != map[] { assert m[p[0] := Obj(undone)] == m; }
        if undone != child && undone != map[] { assert m[p[0] := Obj(undone)][p[0]] != m[p[0]]; }
      } else {
        EmptyAfterUndo(p[1..], x);
        if p[0] !in m { assert m[p[0] := Obj(Set(child, p[1..], x))] - {p[0]} == m; }
      }
    }
  }
}
