/** The index from variant model names to canonical pricing names, and the lookup through it. */
module AliasIndex {
  import opened Prelude

  /** The name rewriters that are regular expressions in the source, and the provider prefixes. */
  datatype Rules = Rules(
    prefixes: seq<string>,
    variants: string -> seq<string>,
    stripVersion: string -> string,
    stripVariant: string -> string,
    stripDate: string -> string)

  type AliasMap = map<string, string>

  function StripPrefix(prefixes: seq<string>, name: string): string {
    if prefixes == [] then name
    else if prefixes[0] <= name then name[|prefixes[0]|..]
    else StripPrefix(prefixes[1..], name)
  }

  function NormalizeDots(name: string): string {
    seq(|name|, i requires 0 <= i < |name| => if name[i] == '.' then '-' else name[i])
  }

  // ----- building -------------------------------------------------------------------------------------------

  function Guarded(m: AliasMap, key: string, name: string): AliasMap {
    if key in m then m else m[key := name]
  }

  function GuardedAll(m: AliasMap, keys: seq<string>, name: string): AliasMap {
    if keys == [] then m else Guarded(GuardedAll(m, keys[..|keys| - 1], name), keys[|keys| - 1], name)
  }

  /** The keys that `name` indexes besides itself, in order. */
  function Claims(rules: Rules, name: string): seq<string> {
    var bare := StripPrefix(rules.prefixes, name);
    var noVersion, noVariant := rules.stripVersion(bare), rules.stripVariant(bare);
    rules.variants(name)
    + (if bare != name then [bare] else [])
    + (if noVersion != bare then [noVersion] else [])
    + (if noVariant != bare then [noVariant] else [])
    + rules.variants(bare)
  }

  function Indexed(m: AliasMap, rules: Rules, name: string): AliasMap {
    GuardedAll(m[name := name], Claims(rules, name), name)
  }

  function IndexAll(rules: Rules, names: seq<string>): AliasMap {
    if names == [] then map[] else Indexed(IndexAll(rules, names[..|names| - 1]), rules, names[|names| - 1])
  }

  function Aliased(m: AliasMap, alias: (string, string)): AliasMap {
    if alias.0 in m then m else m[alias.0 := if alias.1 in m then m[alias.1] else alias.1]
  }

  function AliasAll(m: AliasMap, aliases: seq<(string, string)>): AliasMap {
    if aliases == [] then m else Aliased(AliasAll(m, aliases[..|aliases| - 1]), aliases[|aliases| - 1])
  }

  function Build(rules: Rules, names: seq<string>, aliases: seq<(string, string)>): AliasMap {
    AliasAll(IndexAll(rules, names), aliases)
  }

  lemma {:induction false} GuardedConcat(m: AliasMap, a: seq<string>, b: seq<string>, name: string)
    ensures GuardedAll(m, a + b, name) == GuardedAll(GuardedAll(m, a, name), b, name)
    decreases |b|
  {
    if b == [] {
      assert a + b == a;
    } else {
      assert (a + b)[..|a + b| - 1] == a + b[..|b| - 1];
      GuardedConcat(m, a, b[..|b| - 1], name);
    }
  }

  method AddVariants(before: AliasMap, variants: seq<string>, name: string) returns (m: AliasMap)
    ensures m == GuardedAll(before, variants, name)
  {
    m := before;
    var i := 0;
    while i < |variants|
      invariant i <= |variants| && m == GuardedAll(before, variants[..i], name)
    {
      assert variants[..i + 1][..i] == variants[..i];
      if variants[i] !in m { m := m[variants[i] := name]; }
      i := i + 1;
    }
    assert variants[..i] == variants;
  }

  lemma GuardedIf(m: AliasMap, c: bool, key: string, name: string)
    ensures GuardedAll(m, if c then [key] else [], name) == if c && key !in m then m[key := name] else m
  {
    assert [key][..0] == [];
  }

  /** The body of the loop over the canonical names. */
  method IndexName(before: AliasMap, rules: Rules, name: string) returns (m: AliasMap)
    ensures m == Indexed(before, rules, name)
  {
    m := before[name := name];
    ghost var start := m;
    var own, bare := rules.variants(name), StripPrefix(rules.prefixes, name);
    m := AddVariants(m, own, name);
    ghost var bareKey := if bare != name then [bare] else [];
    GuardedConcat(start, own, bareKey, name);
    GuardedIf(m, bare != name, bare, name);
    if bare != name && bare !in m { m := m[bare := name]; }
    var noVersion := rules.stripVersion(bare);
    ghost var versionKey := if noVersion != bare then [noVersion] else [];
    GuardedConcat(start, own + bareKey, versionKey, name);
    GuardedIf(m, noVersion != bare, noVersion, name);
    if noVersion != bare && noVersion !in m { m := m[noVersion := name]; }
    var noVariant := rules.stripVariant(bare);
    ghost var variantKey := if noVariant != bare then [noVariant] else [];
    GuardedConcat(start, own + bareKey + versionKey, variantKey, name);
    GuardedIf(m, noVariant != bare, noVariant, name);
    if noVariant != bare && noVariant !in m { m := m[noVariant := name]; }
    GuardedConcat(start, own + bareKey + versionKey + variantKey, rules.variants(bare), name);
    m := AddVariants(m, rules.variants(bare), name);
  }

  method BuildAliasMap(rules: Rules, canonicalNames: seq<string>, aliases: seq<(string, string)>) returns (m: AliasMap)
    ensures m == Build(rules, canonicalNames, aliases)
  {
    m := map[];
    var i := 0;
    while i < |canonicalNames|
      invariant i <= |canonicalNames| && m == IndexAll(rules, canonicalNames[..i])
    {
      assert canonicalNames[..i + 1][..i] == canonicalNames[..i];
      m := IndexName(m, rules, canonicalNames[i]);
      i := i + 1;
    }
    assert canonicalNames[..i] == canonicalNames;
    ghost var index := m;
    i := 0;
    while i < |aliases|
      invariant i <= |aliases| && m == AliasAll(index, aliases[..i])
    {
      assert aliases[..i + 1][..i] == aliases[..i];
      var (alias, canonical) := aliases[i];
      i := i + 1;
      if alias in m { continue; }
      var resolved := if canonical in m then m[canonical] else canonical;
      m := m[alias := resolved];
    }
    assert aliases[..i] == aliases;
  }

  // ----- what the index holds ---------------------------------------------------------------------------------

  lemma {:induction false} GuardedAllHolds(m: AliasMap, keys: seq<string>, name: string, k: string)
    ensures k in GuardedAll(m, keys, name) <==> k in m || k in keys
    ensures k in GuardedAll(m, keys, name) ==> GuardedAll(m, keys, name)[k] == if k in m then m[k] else name
  {
    if keys != [] {
      GuardedAllHolds(m, keys[..|keys| - 1], name, k);
      assert keys == keys[..|keys| - 1] + [keys[|keys| - 1]];
    }
  }

  /** The first name in the list that claims the key. */
  function FirstClaimant(rules: Rules, names: seq<string>, k: string): Option<string> {
    if names == [] then None
    else
      var before, last := FirstClaimant(rules, names[..|names| - 1], k), names[|names| - 1];
      if before.Some? then before else if k in Claims(rules, last) then Some(last) else None
  }

  /** Exactly: a canonical name stands for itself, whoever else claims it and in whatever order; any
    * other key stands for the first name that claims it. */
  lemma {:induction false} IndexIsExact(rules: Rules, names: seq<string>, k: string)
    ensures var m := IndexAll(rules, names);
      if k in names then k in m && m[k] == k
      else match FirstClaimant(rules, names, k)
        case Some(name) => k in m && m[k] == name
        case None => k !in m
  {
    if names != [] {
      var front, last := names[..|names| - 1], names[|names| - 1];
      assert names == front + [last];
      IndexIsExact(rules, front, k);
      GuardedAllHolds(IndexAll(rules, front)[last := last], Claims(rules, last), last, k);
    }
  }

  lemma {:induction false} FirstClaimantIsCanonical(rules: Rules, names: seq<string>, k: string)
    ensures var f := FirstClaimant(rules, names, k); f.Some? ==> f.value in names && k in Claims(rules, f.value)
  {
    if names != [] {
      FirstClaimantIsCanonical(rules, names[..|names| - 1], k);
      assert names == names[..|names| - 1] + [names[|names| - 1]];
    }
  }

  lemma {:induction false} AliasesNeverOverwrite(m: AliasMap, aliases: seq<(string, string)>, k: string)
    requires k in m
    ensures k in AliasAll(m, aliases) && AliasAll(m, aliases)[k] == m[k]
  {
    if aliases != [] { AliasesNeverOverwrite(m, aliases[..|aliases| - 1], k); }
  }

  ghost predicate IsTarget(aliases: seq<(string, string)>, name: string) {
    exists i | 0 <= i < |aliases| :: aliases[i].1 == name
  }

  /** Every value of the finished map is a canonical name or the target of a fixed alias. */
  lemma {:induction false} ValuesAreKnown(rules: Rules, names: seq<string>, aliases: seq<(string, string)>, k: string)
    requires k in Build(rules, names, aliases)
    ensures var v := Build(rules, names, aliases)[k]; v in names || IsTarget(aliases, v)
  {
    if aliases == [] {
      IndexIsExact(rules, names, k);
      FirstClaimantIsCanonical(rules, names, k);
    } else {
      var front, last := aliases[..|aliases| - 1], aliases[|aliases| - 1];
      var before := Build(rules, names, front);
      forall v | IsTarget(front, v) ensures IsTarget(aliases, v) {
        var i :| 0 <= i < |front| && front[i].1 == v;
        assert aliases[i].1 == v;
      }
      assert IsTarget(aliases, last.1);
      if k in before {
        ValuesAreKnown(rules, names, front, k);
      } else if last.1 in before {
        ValuesAreKnown(rules, names, front, last.1);
      }
    }
  }

  // ----- what a name claims -----------------------------------------------------------------------------------

  /** The rest of the name after the first prefix it has, or the name itself if it has none. */
  ghost predicate Stripped(prefixes: seq<string>, name: string, rest: string) {
    || (rest == name && forall i | 0 <= i < |prefixes| :: !(prefixes[i] <= name))
    || exists i: nat :: FirstPrefix(prefixes, name, i) && prefixes[i] + rest == name
  }

  predicate FirstPrefix(prefixes: seq<string>, name: string, i: nat) {
    i < |prefixes| && prefixes[i] <= name && forall j | 0 <= j < i :: !(prefixes[j] <= name)
  }

  lemma {:induction false} StripPrefixExactly(prefixes: seq<string>, name: string)
    ensures (forall i | 0 <= i < |prefixes| :: !(prefixes[i] <= name)) ==> StripPrefix(prefixes, name) == name
    ensures forall i: nat | FirstPrefix(prefixes, name, i) :: prefixes[i] + StripPrefix(prefixes, name) == name
  {
    if prefixes != [] && !(prefixes[0] <= name) {
      StripPrefixExactly(prefixes[1..], name);
      forall i: nat | FirstPrefix(prefixes, name, i) ensures prefixes[i] + StripPrefix(prefixes, name) == name {
        assert forall j | 0 <= j < |prefixes| - 1 :: prefixes[1..][j] == prefixes[j + 1];
        assert FirstPrefix(prefixes[1..], name, i - 1);
      }
    }
  }

  /** Stripping a prefix gives the one name that the definition allows. */
  lemma StrippedIsStripPrefix(prefixes: seq<string>, name: string, rest: string)
    requires Stripped(prefixes, name, rest)
    ensures StripPrefix(prefixes, name) == rest
  {
    hide StripPrefix;
    StripPrefixExactly(prefixes, name);
    if i: nat :| FirstPrefix(prefixes, name, i) && prefixes[i] + rest == name {
      assert (prefixes[i] + rest)[|prefixes[i]|..] == rest;
      assert (prefixes[i] + StripPrefix(prefixes, name))[|prefixes[i]|..] == StripPrefix(prefixes, name);
    }
  }

  /** A canonical name claims its short variants, its bare name, the bare name without version or without
    * variant, and the bare name's short variants; and nothing else. */
  lemma ClaimsExactly(rules: Rules, name: string, bare: string, k: string)
    requires Stripped(rules.prefixes, name, bare)
    ensures k in Claims(rules, name) || k == name || k == bare <==>
      k == name || k == bare || k == rules.stripVersion(bare) || k == rules.stripVariant(bare)
      || k in rules.variants(name) || k in rules.variants(bare)
  {
    StrippedIsStripPrefix(rules.prefixes, name, bare);
    var v, w := rules.stripVersion(bare), rules.stripVariant(bare);
    var b, c, d := if bare != name then [bare] else [], if v != bare then [v] else [], if w != bare then [w] else [];
    assert k in Claims(rules, name) <==> k in rules.variants(name) || k in b || k in c || k in d || k in rules.variants(bare);
  }

  /** The first claimant is the claimant that no name before it shares the key with. */
  lemma {:induction false} FirstClaimantExactly(rules: Rules, names: seq<string>, k: string, i: nat)
    requires i < |names|
    requires k in Claims(rules, names[i]) && forall j | 0 <= j < i :: k !in Claims(rules, names[j])
    ensures FirstClaimant(rules, names, k) == Some(names[i])
  {
    hide Claims;
    if i < |names| - 1 {
      FirstClaimantExactly(rules, names[..|names| - 1], k, i);
    } else {
      NoClaimant(rules, names[..i], k);
    }
  }

  lemma {:induction false} NoClaimant(rules: Rules, names: seq<string>, k: string)
    requires forall j | 0 <= j < |names| :: k !in Claims(rules, names[j])
    ensures FirstClaimant(rules, names, k) == None
  {
    hide Claims;
    if names != [] { NoClaimant(rules, names[..|names| - 1], k); }
  }

  /** The bare name of a canonical name is indexed: under itself if it is canonical too, else under the
    * first canonical name that claims it. */
  lemma BareNamesAreIndexed(rules: Rules, names: seq<string>, c: string, bare: string)
    requires c in names && Stripped(rules.prefixes, c, bare)
    ensures var m := IndexAll(rules, names);
      bare in m && m[bare] in names && (bare in names ==> m[bare] == bare)
  {
    IndexIsExact(rules, names, bare);
    FirstClaimantIsCanonical(rules, names, bare);
    if bare !in names {
      ClaimsExactly(rules, c, bare, bare);
      StrippedIsStripPrefix(rules.prefixes, c, bare);
      assert bare in Claims(rules, c) by { assert bare in [bare]; }
      var i: nat :| i < |names| && names[i] == c;
      SomeClaimant(rules, names, bare, i);
    }
  }

  lemma {:induction false} SomeClaimant(rules: Rules, names: seq<string>, k: string, i: nat)
    requires i < |names| && k in Claims(rules, names[i])
    ensures FirstClaimant(rules, names, k).Some?
  {
    hide Claims;
    if i < |names| - 1 { SomeClaimant(rules, names[..|names| - 1], k, i); }
  }

  // ----- looking up ----------------------------------------------------------------------------------------------

  /** A hit must be a non-empty name: an empty string counts as no answer. */
  function Hit(m: AliasMap, key: string): Option<string> {
    if key in m && m[key] != "" then Some(m[key]) else None
  }

  function ResolveModelName(rules: Rules, name: string, m: AliasMap): Option<string> {
    var stripped := StripPrefix(rules.prefixes, name);
    var noDate, noVariant, dotted := rules.stripDate(stripped), rules.stripVariant(stripped), NormalizeDots(stripped);
    if Hit(m, name).Some? then Hit(m, name)
    else if Hit(m, stripped).Some? then Hit(m, stripped)
    else if noDate != stripped && Hit(m, noDate).Some? then Hit(m, noDate)
    else if noVariant != stripped && Hit(m, noVariant).Some? then Hit(m, noVariant)
    else if dotted != stripped then
      if Hit(m, dotted).Some? then Hit(m, dotted)
      else if rules.stripDate(dotted) != dotted then Hit(m, rules.stripDate(dotted))
      else None
    else None
  }

  /** The names tried, in order; repeating one changes nothing. */
  function Candidates(rules: Rules, name: string): seq<string> {
    var stripped := StripPrefix(rules.prefixes, name);
    var dotted := NormalizeDots(stripped);
    [name, stripped, rules.stripDate(stripped), rules.stripVariant(stripped)]
    + (if dotted != stripped then [dotted, rules.stripDate(dotted)] else [])
  }

  function FirstHit(m: AliasMap, keys: seq<string>): Option<string> {
    if keys == [] then None else if Hit(m, keys[0]).Some? then Hit(m, keys[0]) else FirstHit(m, keys[1..])
  }

  /** The lookup is the first hit among the candidates: the inequality guards only save lookups. */
  lemma ResolveIsFirstHit(rules: Rules, name: string, m: AliasMap)
    ensures ResolveModelName(rules, name, m) == FirstHit(m, Candidates(rules, name))
  {
    var c := Candidates(rules, name);
    FirstHitSkips(m, c);
    FirstHitSkips(m, c[1..]);
    FirstHitSkips(m, c[2..]);
    FirstHitSkips(m, c[3..]);
    assert c[1..][1..] == c[2..] && c[2..][1..] == c[3..] && c[3..][1..] == c[4..];
    if |c| == 6 {
      FirstHitSkips(m, c[4..]);
      FirstHitSkips(m, c[5..]);
      assert c[4..][1..] == c[5..] && c[5..][1..] == [];
    }
  }

  lemma FirstHitSkips(m: AliasMap, keys: seq<string>)
    requires keys != []
    ensures FirstHit(m, keys) == if Hit(m, keys[0]).Some? then Hit(m, keys[0]) else FirstHit(m, keys[1..])
  {
  }

  /** The name with a dash for every dot. */
  predicate Undotted(name: string, dashed: string) {
    |dashed| == |name| && forall i | 0 <= i < |name| :: dashed[i] == if name[i] == '.' then '-' else name[i]
  }

  lemma UndottedIsNormalizeDots(name: string, dashed: string)
    requires Undotted(name, dashed)
    ensures NormalizeDots(name) == dashed
  {
  }

  /** How a requested name reaches a canonical one: as it is, without its provider prefix, then without
    * its date, without its variant, with dashes for dots, or with those and without its date; the first
    * of these that the index knows decides. */
  lemma SpellingsReachCanonicalNames(rules: Rules, names: seq<string>, aliases: seq<(string, string)>, name: string, stripped: string, c: string)
    requires c in names && c != "" && Stripped(rules.prefixes, name, stripped)
    ensures var m := Build(rules, names, aliases); var r := ResolveModelName(rules, name, m);
      && (name == c ==> r == Some(c))
      && (name !in m && stripped == c ==> r == Some(c))
      && (name !in m && stripped !in m && rules.stripDate(stripped) == c ==> r == Some(c))
      && (name !in m && stripped !in m && rules.stripDate(stripped) !in m ==>
            && (rules.stripVariant(stripped) == c ==> r == Some(c))
            && (rules.stripVariant(stripped) !in m ==>
                  && (Undotted(stripped, c) ==> r == Some(c))
                  && forall d | Undotted(stripped, d) && d !in m && rules.stripDate(d) == c :: r == Some(c)))
  {
    hide Build;
    var m := Build(rules, names, aliases);
    CanonicalIsIndexed(rules, names, aliases, c);
    StrippedIsStripPrefix(rules.prefixes, name, stripped);
    if Undotted(stripped, c) { UndottedIsNormalizeDots(stripped, c); }
    forall d | Undotted(stripped, d) ensures NormalizeDots(stripped) == d { UndottedIsNormalizeDots(stripped, d); }
  }

  lemma CanonicalIsIndexed(rules: Rules, names: seq<string>, aliases: seq<(string, string)>, c: string)
    requires c in names
    ensures var m := Build(rules, names, aliases); c in m && m[c] == c
  {
    IndexIsExact(rules, names, c);
    AliasesNeverOverwrite(IndexAll(rules, names), aliases, c);
  }

  lemma {:induction false} FirstHitIsAValue(m: AliasMap, keys: seq<string>)
    ensures FirstHit(m, keys).Some? ==> exists k :: k in m && m[k] == FirstHit(m, keys).value && m[k] != ""
  {
    if keys != [] && Hit(m, keys[0]).None? { FirstHitIsAValue(m, keys[1..]); }
  }

  /** A canonical name resolves to itself exactly when it is not empty, whatever prefix, version,
    * variant or alias entries collide with it. */
  lemma CanonicalNamesAreStable(rules: Rules, names: seq<string>, aliases: seq<(string, string)>, c: string)
    requires c in names
    ensures ResolveModelName(rules, c, Build(rules, names, aliases)) == Some(c) <==> c != ""
  {
    var m := Build(rules, names, aliases);
    IndexIsExact(rules, names, c);
    AliasesNeverOverwrite(IndexAll(rules, names), aliases, c);
    ResolveIsFirstHit(rules, c, m);
    FirstHitIsAValue(m, Candidates(rules, c));
  }

  /** Whatever the resolver returns is a canonical name or the target of a fixed alias; a canonical
    * result resolves to itself again. */
  lemma ResolvedNamesAreKnown(rules: Rules, names: seq<string>, aliases: seq<(string, string)>, name: string)
    ensures var m := Build(rules, names, aliases); var r := ResolveModelName(rules, name, m);
      r.Some? ==>
        && r.value != ""
        && (r.value in names || IsTarget(aliases, r.value))
        && (r.value in names ==> ResolveModelName(rules, r.value, m) == r)
  {
    var m := Build(rules, names, aliases);
    var r := ResolveModelName(rules, name, m);
    if r.Some? {
      ResolveIsFirstHit(rules, name, m);
      FirstHitIsAValue(m, Candidates(rules, name));
      var k :| k in m && m[k] == r.value;
      ValuesAreKnown(rules, names, aliases, k);
      if r.value in names { CanonicalNamesAreStable(rules, names, aliases, r.value); }
    }
  }

  /** A name the index does not know resolves through a fixed alias to the canonical name it is listed
    * with, unless an earlier alias took it. */
  lemma AliasesReachCanonicalNames(rules: Rules, names: seq<string>, aliases: seq<(string, string)>, i: nat)
    requires i < |aliases| && aliases[i].1 in names && aliases[i].1 != ""
    requires aliases[i].0 !in IndexAll(rules, names)
    requires forall j | 0 <= j < i :: aliases[j].0 != aliases[i].0
    ensures ResolveModelName(rules, aliases[i].0, Build(rules, names, aliases)) == Some(aliases[i].1)
  {
    var index := IndexAll(rules, names);
    AliasIsAdded(index, aliases[..i], aliases[i].0);
    IndexIsExact(rules, names, aliases[i].1);
    AliasesNeverOverwrite(index, aliases[..i], aliases[i].1);
    var after := AliasAll(index, aliases[..i + 1]);
    assert aliases[..i + 1][..i] == aliases[..i];
    assert after[aliases[i].0] == aliases[i].1;
    AliasAllConcat(index, aliases[..i + 1], aliases[i + 1..]);
    assert aliases[..i + 1] + aliases[i + 1..] == aliases;
    AliasesNeverOverwrite(after, aliases[i + 1..], aliases[i].0);
  }

  /** An unclaimed alias takes what its target stands for in the index, or else the target itself. */
  lemma AliasesFollowTheIndex(rules: Rules, names: seq<string>, aliases: seq<(string, string)>, i: nat)
    requires i < |aliases| && aliases[i].0 !in IndexAll(rules, names)
    requires forall j | 0 <= j < i :: aliases[j].0 != aliases[i].0 && aliases[j].0 != aliases[i].1
    ensures var index, m, target := IndexAll(rules, names), Build(rules, names, aliases), aliases[i].1;
      aliases[i].0 in m && m[aliases[i].0] == if target in index then index[target] else target
  {
    var index, target := IndexAll(rules, names), aliases[i].1;
    AliasIsAdded(index, aliases[..i], aliases[i].0);
    if target in index {
      AliasesNeverOverwrite(index, aliases[..i], target);
    } else {
      AliasIsAdded(index, aliases[..i], target);
    }
    var after := AliasAll(index, aliases[..i + 1]);
    assert aliases[..i + 1][..i] == aliases[..i];
    AliasAllConcat(index, aliases[..i + 1], aliases[i + 1..]);
    assert aliases[..i + 1] + aliases[i + 1..] == aliases;
    AliasesNeverOverwrite(after, aliases[i + 1..], aliases[i].0);
  }

  lemma {:induction false} AliasIsAdded(m: AliasMap, aliases: seq<(string, string)>, k: string)
    requires k !in m && forall j | 0 <= j < |aliases| :: aliases[j].0 != k
    ensures k !in AliasAll(m, aliases)
  {
    if aliases != [] { AliasIsAdded(m, aliases[..|aliases| - 1], k); }
  }

  lemma {:induction false} AliasAllConcat(m: AliasMap, a: seq<(string, string)>, b: seq<(string, string)>)
    ensures AliasAll(m, a + b) == AliasAll(AliasAll(m, a), b)
    decreases |b|
  {
    if b == [] {
      assert a + b == a;
    } else {
      assert (a + b)[..|a + b| - 1] == a + b[..|b| - 1];
      AliasAllConcat(m, a, b[..|b| - 1]);
    }
  }
}
