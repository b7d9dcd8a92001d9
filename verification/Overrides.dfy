/** The formal-logic override: a direct word-boundary search that must agree with the trie. */
module Overrides {
  import opened Prelude
  import opened KeywordSearch
  import opened Trie

  /** JavaScript's `text.indexOf(keyword, from)`: the start is clamped to the text. */
  function IndexOf(text: Text, keyword: Text, from: nat): (r: Option<nat>)
    ensures r.Some? ==> Min(from, |text|) <= r.value && Occurs(text, keyword, r.value)
    ensures forall i :: Min(from, |text|) <= i && (r.Some? ==> i < r.value) ==> !Occurs(text, keyword, i)
    decreases |text| - from
  {
    var start := Min(from, |text|);
    if start + |keyword| > |text| then None
    else if text[start..start + |keyword|] == keyword then Some(start)
    else IndexOf(text, keyword, start + 1)
  }

  predicate Occurs(text: Text, keyword: Text, i: nat) {
    i + |keyword| <= |text| && text[i..i + |keyword|] == keyword
  }

  predicate WholeWord(text: Text, keyword: Text, idx: nat)
    requires idx <= |text|
  {
    BoundaryBefore(text, idx) && BoundaryAfter(text, |text|, idx + |keyword|)
  }

  /** True exactly when the lowered keyword stands somewhere as a whole word. The search ends only
    * for a non-empty keyword or when it succeeds; `SearchEnds` shows that this is no accident. */
  method HasWordBoundaryMatch(text: Text, keyword: Text, toLower: Text -> Text) returns (found: bool)
    requires toLower(keyword) != [] || HasWord(text, toLower(keyword))
    ensures found <==> HasWord(text, toLower(keyword))
  {
    var kwLower := toLower(keyword);
    var idx := IndexOf(text, kwLower, 0);
    assert forall i: nat | WordAt(text, |text|, kwLower, i) :: Occurs(text, kwLower, i);
    while idx.Some?
      invariant idx.Some? ==> Occurs(text, kwLower, idx.value)
      invariant NoWordBefore(text, kwLower, idx)
      decreases if idx.Some? then |text| - idx.value + 1 else 0
    {
      if WholeWord(text, kwLower, idx.value) {
        assert WordAt(text, |text|, kwLower, idx.value);
        return true;
      }
      NoWordAfterProbe(text, kwLower, idx.value);
      idx := IndexOf(text, kwLower, idx.value + 1);
    }
    return false;
  }

  /** The search has passed no whole word on its way to `idx`. */
  ghost predicate NoWordBefore(text: Text, keyword: Text, idx: Option<nat>) {
    forall i: nat | WordAt(text, |text|, keyword, i) :: idx.Some? && idx.value <= i
  }

  lemma WordOccurs(text: Text, keyword: Text, i: nat)
    requires WordAt(text, |text|, keyword, i)
    ensures i <= |text| && Occurs(text, keyword, i) && WholeWord(text, keyword, i)
  {
  }

  lemma NoWordAfterProbe(text: Text, keyword: Text, from: nat)
    requires keyword != [] || HasWord(text, keyword)
    requires Occurs(text, keyword, from) && !WholeWord(text, keyword, from)
    requires NoWordBefore(text, keyword, Some(from))
    ensures NoWordBefore(text, keyword, IndexOf(text, keyword, from + 1)) && from < |text|
  {
    var next := IndexOf(text, keyword, from + 1);
    forall i: nat | WordAt(text, |text|, keyword, i) ensures next.Some? && next.value <= i < |text| + 1 && from < i {
      WordOccurs(text, keyword, i);
    }
    if HasWord(text, keyword) {
      var i: nat :| WordAt(text, |text|, keyword, i);
    }
  }

  // ----- when the search ends -----------------------------------------------------------------------

  datatype Search = Looking(idx: nat) | Found | Exhausted

  function Continue(text: Text, keyword: Text, from: nat): Search {
    var next := IndexOf(text, keyword, from);
    if next.Some? then Looking(next.value) else Exhausted
  }

  /** The search after `n` turns of its loop. */
  function AfterTurns(text: Text, keyword: Text, n: nat): (s: Search)
    ensures s.Looking? ==> Occurs(text, keyword, s.idx)
  {
    if n == 0 then Continue(text, keyword, 0)
    else
      var before := AfterTurns(text, keyword, n - 1);
      if !before.Looking? then before
      else if WholeWord(text, keyword, before.idx) then Found
      else Continue(text, keyword, before.idx + 1)
  }

  lemma EmptyIsFound(text: Text, from: nat)
    ensures IndexOf(text, [], from) == Some(Min(from, |text|))
  {
    assert text[Min(from, |text|)..Min(from, |text|)] == [];
  }

  lemma EmptyWord(text: Text, idx: nat)
    requires idx <= |text|
    ensures WordAt(text, |text|, [], idx) <==> WholeWord(text, [], idx)
  {
    assert text[idx..idx] == [];
  }

  lemma {:induction false} EmptyKeywordCreeps(text: Text, n: nat)
    requires !HasWord(text, [])
    ensures AfterTurns(text, [], n) == Looking(Min(n, |text|))
  {
    hide IndexOf, BoundaryBefore, BoundaryAfter;
    EmptyIsFound(text, Min(n, |text| + 1));
    if n > 0 {
      EmptyKeywordCreeps(text, n - 1);
      var idx := Min(n - 1, |text|);
      EmptyWord(text, idx);
    }
  }

  lemma {:induction false} KeywordAdvances(text: Text, keyword: Text, n: nat)
    requires keyword != []
    ensures AfterTurns(text, keyword, n).Looking? ==> n <= AfterTurns(text, keyword, n).idx < |text|
  {
    var s := AfterTurns(text, keyword, n);
    assert s.Looking? ==> Occurs(text, keyword, s.idx);
    if n > 0 {
      KeywordAdvances(text, keyword, n - 1);
    }
  }

  lemma {:induction false} WordIsFound(text: Text, keyword: Text, i: nat, n: nat)
    requires WordAt(text, |text|, keyword, i)
    ensures var s := AfterTurns(text, keyword, n); s == Found || (s.Looking? && Min(n, i) <= s.idx <= i)
  {
    assert Occurs(text, keyword, i);
    if n > 0 {
      WordIsFound(text, keyword, i, n - 1);
      var s := AfterTurns(text, keyword, n - 1);
      if s.Looking? && s.idx == i {
        assert WholeWord(text, keyword, i);
      }
    }
  }

  /** The loop has ended after `n` turns. */
  predicate Ended(text: Text, keyword: Text, n: nat) {
    !AfterTurns(text, keyword, n).Looking?
  }

  lemma WordEndsSearch(text: Text, keyword: Text, i: nat)
    requires WordAt(text, |text|, keyword, i)
    ensures Ended(text, keyword, i + 1)
  {
    WordIsFound(text, keyword, i, i);
    WordIsFound(text, keyword, i, i + 1);
    assert WholeWord(text, keyword, i);
  }

  /** The search loop ends exactly when the keyword is non-empty or stands as a whole word: on an
    * empty keyword without one it turns for ever at the end of the text. */
  lemma SearchEnds(text: Text, keyword: Text)
    ensures (exists n :: Ended(text, keyword, n)) <==> keyword != [] || HasWord(text, keyword)
  {
    if keyword != [] {
      KeywordAdvances(text, keyword, |text|);
      assert Ended(text, keyword, |text|);
    } else if HasWord(text, keyword) {
      var i: nat :| WordAt(text, |text|, keyword, i);
      WordEndsSearch(text, keyword, i);
    } else {
      forall n ensures !Ended(text, keyword, n) {
        EmptyKeywordCreeps(text, n);
      }
    }
  }

  // ----- the override and the trie ---------------------------------------------------------------------

  datatype DimensionConfig = DimensionConfig(name: string, keywords: Option<seq<Text>>)

  const FORMAL_LOGIC := "formalLogic"

  function Find(dims: seq<DimensionConfig>, name: string): (r: Option<DimensionConfig>)
    ensures r.Some? ==> r.value in dims && r.value.name == name
    ensures r.None? ==> forall d | d in dims :: d.name != name
  {
    if dims == [] then None
    else if dims[0].name == name then Some(dims[0])
    else Find(dims[1..], name)
  }

  /** The search finds the first dimension of the name. */
  lemma {:induction false} FindIsFirst(dims: seq<DimensionConfig>, name: string, i: nat)
    requires i < |dims| && dims[i].name == name && forall j | 0 <= j < i :: dims[j].name != name
    ensures Find(dims, name) == Some(dims[i])
  {
    if i > 0 {
      assert forall j | 0 <= j < |dims| - 1 :: dims[1..][j] == dims[j + 1];
      FindIsFirst(dims[1..], name, i - 1);
    }
  }

  /** Some keyword of the first formal-logic dimension stands as a whole word in the lowered text. */
  ghost predicate FormalLogic(dims: seq<DimensionConfig>, lastUserText: Text, toLower: Text -> Text) {
    var dim := Find(dims, FORMAL_LOGIC);
    && dim.Some? && dim.value.keywords.Some? && lastUserText != []
    && exists kw :: kw in dim.value.keywords.value && HasWord(toLower(lastUserText), toLower(kw))
  }

  /** Whatever keyword the override comes to search for, the search ends: it is non-empty or stands as
    * a word, unless the text is empty or an earlier keyword has been found. */
  ghost predicate OverrideEnds(dims: seq<DimensionConfig>, lastUserText: Text, toLower: Text -> Text) {
    var dim := Find(dims, FORMAL_LOGIC);
    dim.Some? && dim.value.keywords.Some? && lastUserText != [] ==>
      forall j | 0 <= j < |dim.value.keywords.value| :: KeywordSearchEnds(dim.value.keywords.value, j, toLower(lastUserText), toLower)
  }

  ghost predicate KeywordSearchEnds(keywords: seq<Text>, j: nat, text: Text, toLower: Text -> Text)
    requires j < |keywords|
  {
    toLower(keywords[j]) != [] || exists i | 0 <= i <= j :: HasWord(text, toLower(keywords[i]))
  }

  method CheckFormalLogicOverride(dims: seq<DimensionConfig>, lastUserText: Text, toLower: Text -> Text) returns (r: bool)
    requires OverrideEnds(dims, lastUserText, toLower)
    ensures r <==> FormalLogic(dims, lastUserText, toLower)
  {
    var formalDim := Find(dims, FORMAL_LOGIC);
    if formalDim.None? || formalDim.value.keywords.None? || |lastUserText| == 0 {
      return false;
    }
    var keywords := formalDim.value.keywords.value;
    var lastTextLower := toLower(lastUserText);
    var i := 0;
    while i < |keywords|
      invariant i <= |keywords|
      invariant forall j :: 0 <= j < i ==> !HasWord(lastTextLower, toLower(keywords[j]))
    {
      assert KeywordSearchEnds(keywords, i, lastTextLower, toLower);
      var found := HasWordBoundaryMatch(lastTextLower, keywords[i], toLower);
      if found {
        return true;
      }
      i := i + 1;
    }
    return false;
  }

  /** The dimensions `buildTrie` hands to the trie: those that have keywords. */
  function TrieDimensions(dims: seq<DimensionConfig>): seq<Dimension> {
    if dims == [] then []
    else
      var rest := TrieDimensions(dims[..|dims| - 1]);
      var last := dims[|dims| - 1];
      if last.keywords.Some? && last.keywords.value != [] then rest + [Dimension(last.name, last.keywords.value)]
      else rest
  }

  lemma {:induction false} TriePairs(dims: seq<DimensionConfig>, toLower: Text -> Text, p: Pair)
    ensures p in AllPairs(TrieDimensions(dims), toLower) <==>
            exists d, kw :: d in dims && d.keywords.Some? && kw in d.keywords.value && p == Pair(toLower(kw), d.name)
  {
    if dims != [] {
      var front, last := dims[..|dims| - 1], dims[|dims| - 1];
      TriePairs(front, toLower, p);
      assert dims == front + [last];
      if last.keywords.Some? && last.keywords.value != [] {
        var all := TrieDimensions(dims);
        assert all[..|all| - 1] == TrieDimensions(front);
        var own := PairsOf(last.keywords.value, last.name, toLower);
        if p in own {
          var i :| 0 <= i < |own| && own[i] == p;
          assert last.keywords.value[i] in last.keywords.value;
        }
        forall kw | kw in last.keywords.value ensures Pair(toLower(kw), last.name) in own {
          var i :| 0 <= i < |last.keywords.value| && last.keywords.value[i] == kw;
          assert own[i] == Pair(toLower(kw), last.name);
        }
      }
    }
  }

  ghost predicate UniqueNames(dims: seq<DimensionConfig>) {
    forall i, j | 0 <= i < j < |dims| :: dims[i].name != dims[j].name
  }

  ghost predicate FormalKeyword(dims: seq<DimensionConfig>, kw: Text) {
    var dim := Find(dims, FORMAL_LOGIC);
    dim.Some? && dim.value.keywords.Some? && kw in dim.value.keywords.value
  }

  /** A trie built from the same configuration reports a match of the formal-logic dimension. */
  ghost predicate TrieReports(dims: seq<DimensionConfig>, text: Text, toLower: Text -> Text) {
    exists m :: m in NaiveScan(Reachable(AllPairs(TrieDimensions(dims), toLower)), toLower(text)) && m.dimension == FORMAL_LOGIC
  }

  /** What the trie can see of a keyword: non-empty, free of surrogate pairs, a whole word of the
    * scanned part. */
  ghost predicate Seen(t: Text, keyword: Text) {
    keyword != [] && Plain(keyword) && HasWord(t[..ScanLength(t)], keyword)
  }

  lemma FormalPairs(dims: seq<DimensionConfig>, toLower: Text -> Text, keyword: Text)
    requires UniqueNames(dims)
    ensures Pair(keyword, FORMAL_LOGIC) in AllPairs(TrieDimensions(dims), toLower) <==>
            exists kw :: FormalKeyword(dims, kw) && toLower(kw) == keyword
  {
    TriePairs(dims, toLower, Pair(keyword, FORMAL_LOGIC));
    if d, kw :| d in dims && d.keywords.Some? && kw in d.keywords.value && Pair(keyword, FORMAL_LOGIC) == Pair(toLower(kw), d.name) {
      OnlyOneOfAName(dims, d);
      assert FormalKeyword(dims, kw);
    }
    if kw :| FormalKeyword(dims, kw) && toLower(kw) == keyword {
      assert Find(dims, FORMAL_LOGIC).value in dims;
    }
  }

  /** Whatever the other dimensions hold, the trie reports a formal-logic match exactly when it can see
    * one of the formal-logic keywords in the text. */
  lemma TrieSeesFormalLogic(dims: seq<DimensionConfig>, text: Text, toLower: Text -> Text)
    requires UniqueNames(dims)
    ensures TrieReports(dims, text, toLower) <==> exists kw :: FormalKeyword(dims, kw) && Seen(toLower(text), toLower(kw))
  {
    var pairs, t := AllPairs(TrieDimensions(dims), toLower), toLower(text);
    if m :| m in NaiveScan(Reachable(pairs), t) && m.dimension == FORMAL_LOGIC {
      ScanReports(pairs, t, m.keyword, FORMAL_LOGIC);
      FormalPairs(dims, toLower, m.keyword);
    }
    if kw :| FormalKeyword(dims, kw) && Seen(t, toLower(kw)) {
      FormalPairs(dims, toLower, toLower(kw));
      ScanReports(pairs, t, toLower(kw), FORMAL_LOGIC);
    }
  }

  /** The cut at the scan limit makes the keyword look like a whole word: it ends there, in the middle of
    * a longer one. */
  ghost predicate CompletedByCut(t: Text, keyword: Text) {
    && ScanLength(t) < |t| && IsWordCharCode(t[ScanLength(t)])
    && exists i: nat :: i + |keyword| == ScanLength(t) && WordAt(t, ScanLength(t), keyword, i)
  }

  /** A keyword stands as a whole word in the scanned part without doing so in the text only when the cut
    * completes it. */
  lemma OnlyTheCutAddsWords(t: Text, keyword: Text)
    ensures HasWord(t[..ScanLength(t)], keyword) && !HasWord(t, keyword) ==> CompletedByCut(t, keyword)
    ensures CompletedByCut(t, keyword) ==> HasWord(t[..ScanLength(t)], keyword)
  {
    var len := ScanLength(t);
    if HasWord(t[..len], keyword) && !HasWord(t, keyword) {
      var i: nat :| WordAt(t[..len], len, keyword, i);
      WordInPrefix(t, len, keyword, i);
      assert !WordAt(t, |t|, keyword, i);
    }
    if CompletedByCut(t, keyword) {
      var i: nat :| i + |keyword| == len && WordAt(t, len, keyword, i);
      WordInPrefix(t, len, keyword, i);
      assert |t[..len]| == len;
    }
  }

  /** On any text the override and the trie give the same verdict exactly when the trie can see some
    * keyword if the override fires, and the cut at the scan limit completes none if it does not. */
  lemma OverrideAgreesAnywhere(dims: seq<DimensionConfig>, text: Text, toLower: Text -> Text)
    requires UniqueNames(dims) && (text == [] ==> toLower(text) == [])
    ensures (FormalLogic(dims, text, toLower) <==> TrieReports(dims, text, toLower)) <==>
            if FormalLogic(dims, text, toLower) then exists kw :: FormalKeyword(dims, kw) && Seen(toLower(text), toLower(kw))
            else forall kw | FormalKeyword(dims, kw) && toLower(kw) != [] && Plain(toLower(kw)) :: !CompletedByCut(toLower(text), toLower(kw))
  {
    var t := toLower(text);
    TrieSeesFormalLogic(dims, text, toLower);
    if !FormalLogic(dims, text, toLower) {
      forall kw | FormalKeyword(dims, kw)
        ensures Seen(t, toLower(kw)) <==> toLower(kw) != [] && Plain(toLower(kw)) && CompletedByCut(t, toLower(kw))
      {
        OnlyTheCutAddsWords(t, toLower(kw));
        if text == [] && toLower(kw) != [] { NoWordInNothing(toLower(kw)); }
      }
    }
  }

  /** On a text within the scan limit, the override fires exactly when the trie of the same
    * configuration reports a formal-logic match, unless the keywords it finds are all empty or hold
    * surrogate pairs: those the trie cannot see. */
  lemma OverrideAgreesExactly(dims: seq<DimensionConfig>, text: Text, toLower: Text -> Text)
    requires UniqueNames(dims) && |toLower(text)| <= MAX_SCAN_LENGTH && (text == [] ==> toLower(text) == [])
    ensures (FormalLogic(dims, text, toLower) <==> TrieReports(dims, text, toLower)) <==>
            (FormalLogic(dims, text, toLower) ==>
              exists kw :: FormalKeyword(dims, kw) && HasWord(toLower(text), toLower(kw)) && toLower(kw) != [] && Plain(toLower(kw)))
  {
    var t := toLower(text);
    assert t[..ScanLength(t)] == t;
    TrieSeesFormalLogic(dims, text, toLower);
    if kw :| FormalKeyword(dims, kw) && Seen(t, toLower(kw)) {
      assert text != [] by { if text == [] { NoWordInNothing(toLower(kw)); } }
      assert FormalLogic(dims, text, toLower);
    }
  }

  lemma NoWordInNothing(keyword: Text)
    requires keyword != []
    ensures !HasWord([], keyword)
  {
  }

  /** In particular when the formal-logic keywords are non-empty and free of surrogate pairs, whatever
    * the other dimensions hold. */
  lemma OverrideAgreesWithTrie(dims: seq<DimensionConfig>, text: Text, toLower: Text -> Text)
    requires UniqueNames(dims) && |toLower(text)| <= MAX_SCAN_LENGTH && (text == [] ==> toLower(text) == [])
    requires forall kw | FormalKeyword(dims, kw) :: toLower(kw) != [] && Plain(toLower(kw))
    ensures FormalLogic(dims, text, toLower) <==> TrieReports(dims, text, toLower)
  {
    OverrideAgreesExactly(dims, text, toLower);
  }

  lemma {:induction false} OnlyOneOfAName(dims: seq<DimensionConfig>, d: DimensionConfig)
    requires UniqueNames(dims) && d in dims
    ensures Find(dims, d.name) == Some(d)
  {
    if dims[0] != d {
      assert dims[1..] == dims[1..];
      var i :| 0 <= i < |dims| && dims[i] == d;
      assert dims[0].name != dims[i].name && d == dims[1..][i - 1];
      OnlyOneOfAName(dims[1..], d);
    }
  }
}
