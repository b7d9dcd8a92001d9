/** Word-boundary keyword search over UTF-16 text: what the trie and the direct search both mean. */
module KeywordSearch {
  import opened Prelude

  newtype CodeUnit = x: int | 0 <= x < 0x1_0000
  type Text = seq<CodeUnit>

  const MAX_SCAN_LENGTH: nat := 100_000

  /** [0-9A-Za-z_] */
  predicate IsWordCharCode(c: CodeUnit) {
    48 <= c <= 57 || 65 <= c <= 90 || 97 <= c <= 122 || c == 95
  }

  predicate IsHighSurrogate(c: CodeUnit) { 0xD800 <= c <= 0xDBFF }

  predicate IsLowSurrogate(c: CodeUnit) { 0xDC00 <= c <= 0xDFFF }

  // ----- code points ----------------------------------------------------------------------------

  /** The strings a `for ... of` loop yields: a surrogate pair comes as one string of two units. */
  function CodePoints(t: Text): seq<Text> {
    if t == [] then []
    else if |t| >= 2 && IsHighSurrogate(t[0]) && IsLowSurrogate(t[1]) then [t[..2]] + CodePoints(t[2..])
    else [t[..1]] + CodePoints(t[1..])
  }

  /** The strings that indexing yields: always one unit each. */
  function Units(t: Text): seq<Text> {
    seq(|t|, i requires 0 <= i < |t| => [t[i]])
  }

  function Concat(parts: seq<Text>): Text {
    if parts == [] then [] else parts[0] + Concat(parts[1..])
  }

  lemma {:induction false} CodePointsConcat(t: Text)
    ensures Concat(CodePoints(t)) == t
  {
    if t != [] {
      var n := if |t| >= 2 && IsHighSurrogate(t[0]) && IsLowSurrogate(t[1]) then 2 else 1;
      CodePointsConcat(t[n..]);
      assert CodePoints(t) == [t[..n]] + CodePoints(t[n..]);
      assert t[..n] + t[n..] == t;
    }
  }

  lemma {:induction false} UnitsConcat(t: Text)
    ensures Concat(Units(t)) == t
  {
    if t != [] {
      assert Units(t)[1..] == Units(t[1..]);
      UnitsConcat(t[1..]);
    }
  }

  /** No surrogate pair: walking code points and walking code units agree. */
  predicate Plain(t: Text) {
    forall i :: 0 <= i < |t| - 1 ==> !(IsHighSurrogate(t[i]) && IsLowSurrogate(t[i + 1]))
  }

  lemma {:induction false} PlainIsUnits(t: Text)
    ensures Plain(t) <==> CodePoints(t) == Units(t)
  {
    if t != [] {
      if |t| >= 2 && IsHighSurrogate(t[0]) && IsLowSurrogate(t[1]) {
        assert |CodePoints(t)[0]| == 2 && |Units(t)[0]| == 1;
      } else {
        PlainIsUnits(t[1..]);
        assert Units(t)[1..] == Units(t[1..]);
        assert t[..1] == [t[0]];
        assert CodePoints(t)[1..] == CodePoints(t[1..]);
        assert Plain(t) <==> Plain(t[1..]) by {
          if Plain(t[1..]) {
            forall i | 0 <= i < |t| - 1 ensures !(IsHighSurrogate(t[i]) && IsLowSurrogate(t[i + 1])) {
              if i > 0 { assert t[i] == t[1..][i - 1] && t[i + 1] == t[1..][i]; }
            }
          }
          if Plain(t) {
            forall i | 0 <= i < |t[1..]| - 1
              ensures !(IsHighSurrogate(t[1..][i]) && IsLowSurrogate(t[1..][i + 1]))
            {
              assert t[1..][i] == t[i + 1] && t[1..][i + 1] == t[i + 2];
            }
          }
        }
      }
    }
  }

  /** A keyword's path is spelled by code units exactly when it is that keyword, without pairs. */
  lemma PathOfUnits(keyword: Text, word: Text)
    ensures CodePoints(keyword) == Units(word) <==> keyword == word && Plain(word)
  {
    PlainIsUnits(word);
    CodePointsConcat(keyword);
    UnitsConcat(word);
  }

  // ----- the naive search ------------------------------------------------------------------------

  datatype Pair = Pair(keyword: Text, dimension: string)

  datatype Match = Match(keyword: Text, dimension: string, position: nat)

  predicate BoundaryBefore(t: Text, i: nat)
    requires i <= |t|
  {
    i == 0 || !IsWordCharCode(t[i - 1])
  }

  /** No word character follows position `end`; the text is read only up to `len`. */
  predicate BoundaryAfter(t: Text, len: nat, end: nat)
    requires len <= |t|
  {
    end >= len || !IsWordCharCode(t[end])
  }

  /** The pairs whose keyword is exactly `word`, in order, as matches at `position`. */
  function Spelled(pairs: seq<Pair>, word: Text, position: nat): seq<Match> {
    if pairs == [] then []
    else
      (if pairs[0].keyword == word then [Match(word, pairs[0].dimension, position)] else [])
      + Spelled(pairs[1..], word, position)
  }

  /** All matches that start at `i` and end after `j` or later. */
  function MatchesFrom(pairs: seq<Pair>, t: Text, len: nat, i: nat, j: nat): seq<Match>
    requires i <= j <= len <= |t|
    decreases len - j
  {
    if j == len then []
    else
      (if BoundaryAfter(t, len, j + 1) then Spelled(pairs, t[i..j + 1], i) else [])
      + MatchesFrom(pairs, t, len, i, j + 1)
  }

  /** The triple loop over start, end and inserted pair, from start `i` on. */
  function Naive(pairs: seq<Pair>, t: Text, len: nat, i: nat): seq<Match>
    requires i <= len <= |t|
    decreases len - i
  {
    if i == len then []
    else (if BoundaryBefore(t, i) then MatchesFrom(pairs, t, len, i, i) else []) + Naive(pairs, t, len, i + 1)
  }

  function ScanLength(t: Text): nat {
    Min(|t|, MAX_SCAN_LENGTH)
  }

  function NaiveScan(pairs: seq<Pair>, t: Text): seq<Match> {
    Naive(pairs, t, ScanLength(t), 0)
  }

  /** The pairs a walk by code units can reach. */
  function Reachable(pairs: seq<Pair>): seq<Pair> {
    if pairs == [] then []
    else (if Plain(pairs[0].keyword) then [pairs[0]] else []) + Reachable(pairs[1..])
  }

  lemma {:induction false} AllReachable(pairs: seq<Pair>)
    ensures (forall p | p in pairs :: Plain(p.keyword)) <==> Reachable(pairs) == pairs
  {
    if pairs != [] {
      AllReachable(pairs[1..]);
      ReachableIsNoLonger(pairs[1..]);
      assert pairs == [pairs[0]] + pairs[1..];
      if Plain(pairs[0].keyword) {
        assert Reachable(pairs)[1..] == Reachable(pairs[1..]);
      }
    }
  }

  lemma {:induction false} ReachableIsNoLonger(pairs: seq<Pair>)
    ensures |Reachable(pairs)| <= |pairs|
  {
    if pairs != [] { ReachableIsNoLonger(pairs[1..]); }
  }

  // ----- which matches the naive search reports ------------------------------------------------------

  /** `keyword` stands at `i` as a whole word within the first `len` units. */
  predicate WordAt(t: Text, len: nat, keyword: Text, i: nat)
    requires len <= |t|
  {
    i + |keyword| <= len && t[i..i + |keyword|] == keyword
    && BoundaryBefore(t, i) && BoundaryAfter(t, len, i + |keyword|)
  }

  /** Between what comes before and after it, a keyword stands as a whole word exactly when neither the
    * unit before nor the unit after is a word character. */
  lemma WordStandsBetween(before: Text, keyword: Text, after: Text)
    ensures var t := before + keyword + after;
      WordAt(t, |t|, keyword, |before|) <==>
        (before == [] || !IsWordCharCode(before[|before| - 1])) && (after == [] || !IsWordCharCode(after[0]))
  {
    var t := before + keyword + after;
    assert t[|before|..|before| + |keyword|] == keyword;
    assert before != [] ==> t[|before| - 1] == before[|before| - 1];
    assert after != [] ==> t[|before| + |keyword|] == after[0];
  }

  /** The word characters are the digits, the Latin letters of both cases and the underscore. */
  lemma WordCharacters(c: CodeUnit)
    ensures var n := c as int;
      IsWordCharCode(c) <==>
        '0' as int <= n <= '9' as int || 'A' as int <= n <= 'Z' as int || 'a' as int <= n <= 'z' as int || n == '_' as int
  {
  }

  lemma {:induction false} SpelledContents(pairs: seq<Pair>, word: Text, position: nat, m: Match)
    ensures m in Spelled(pairs, word, position) <==>
            m.keyword == word && m.position == position && Pair(word, m.dimension) in pairs
  {
    if pairs != [] {
      SpelledContents(pairs[1..], word, position, m);
      assert pairs == [pairs[0]] + pairs[1..];
    }
  }

  lemma StepContents(pairs: seq<Pair>, t: Text, len: nat, i: nat, j: nat, m: Match)
    requires i <= j < len <= |t| && BoundaryBefore(t, i)
    ensures m in (if BoundaryAfter(t, len, j + 1) then Spelled(pairs, t[i..j + 1], i) else []) <==>
            && m.position == i && |m.keyword| == j + 1 - i && WordAt(t, len, m.keyword, i)
            && Pair(m.keyword, m.dimension) in pairs
  {
    SpelledContents(pairs, t[i..j + 1], i, m);
  }

  lemma {:induction false} MatchesFromContents(pairs: seq<Pair>, t: Text, len: nat, i: nat, j: nat, m: Match)
    requires i <= j <= len <= |t| && BoundaryBefore(t, i)
    ensures m in MatchesFrom(pairs, t, len, i, j) <==>
            && m.position == i && |m.keyword| > j - i && WordAt(t, len, m.keyword, i)
            && Pair(m.keyword, m.dimension) in pairs
    decreases len - j
  {
    if j < len {
      StepContents(pairs, t, len, i, j, m);
      MatchesFromContents(pairs, t, len, i, j + 1, m);
    }
  }

  /** The naive search reports exactly the non-empty inserted keywords that stand as whole words. */
  lemma {:induction false} NaiveContents(pairs: seq<Pair>, t: Text, len: nat, i: nat, m: Match)
    requires i <= len <= |t|
    ensures m in Naive(pairs, t, len, i) <==>
            && m.position >= i && m.keyword != [] && WordAt(t, len, m.keyword, m.position)
            && Pair(m.keyword, m.dimension) in pairs
    decreases len - i
  {
    if i < len {
      if BoundaryBefore(t, i) {
        MatchesFromContents(pairs, t, len, i, i, m);
      }
      NaiveContents(pairs, t, len, i + 1, m);
    }
  }

  lemma WordInPrefix(t: Text, len: nat, keyword: Text, i: nat)
    requires len <= |t|
    ensures WordAt(t, len, keyword, i) <==> WordAt(t[..len], len, keyword, i)
  {
    if i + |keyword| <= len { assert t[i..i + |keyword|] == t[..len][i..i + |keyword|]; }
  }

  /** A scan reports a keyword of a dimension somewhere exactly when the pair was inserted, the keyword
    * is non-empty and free of surrogate pairs, and it stands as a whole word in the text cut at the
    * scan limit. */
  lemma ScanReports(pairs: seq<Pair>, t: Text, keyword: Text, dimension: string)
    ensures (exists m :: m in NaiveScan(Reachable(pairs), t) && m.keyword == keyword && m.dimension == dimension) <==>
            Pair(keyword, dimension) in pairs && keyword != [] && Plain(keyword) && HasWord(t[..ScanLength(t)], keyword)
  {
    var len := ScanLength(t);
    ReachableContents(pairs, Pair(keyword, dimension));
    if Pair(keyword, dimension) in pairs && keyword != [] && Plain(keyword) && HasWord(t[..len], keyword) {
      var i: nat :| WordAt(t[..len], len, keyword, i);
      WordInPrefix(t, len, keyword, i);
      NaiveContents(Reachable(pairs), t, len, 0, Match(keyword, dimension, i));
    }
    forall m | m in NaiveScan(Reachable(pairs), t) && m.keyword == keyword && m.dimension == dimension
      ensures Pair(keyword, dimension) in pairs && keyword != [] && Plain(keyword) && HasWord(t[..len], keyword)
    {
      NaiveContents(Reachable(pairs), t, len, 0, m);
      WordInPrefix(t, len, keyword, m.position);
    }
  }

  ghost predicate HasWord(t: Text, keyword: Text) {
    exists i: nat :: WordAt(t, |t|, keyword, i)
  }

  lemma {:induction false} ReachableContents(pairs: seq<Pair>, p: Pair)
    ensures p in Reachable(pairs) <==> p in pairs && Plain(p.keyword)
  {
    if pairs != [] {
      ReachableContents(pairs[1..], p);
      assert pairs == [pairs[0]] + pairs[1..];
    }
  }

  // ----- when walking code units loses nothing ---------------------------------------------------------

  /** Some inserted keyword with a surrogate pair stands as a whole word in the scanned part. */
  ghost predicate Lost(pairs: seq<Pair>, t: Text) {
    exists p :: p in pairs && !Plain(p.keyword) && HasWord(t[..ScanLength(t)], p.keyword)
  }

  lemma {:induction false} SpelledAgree(pairs: seq<Pair>, word: Text, position: nat)
    requires forall p | p in pairs && p.keyword == word :: Plain(word)
    ensures Spelled(Reachable(pairs), word, position) == Spelled(pairs, word, position)
  {
    if pairs != [] {
      SpelledAgree(pairs[1..], word, position);
      if Plain(pairs[0].keyword) {
        assert Reachable(pairs)[1..] == Reachable(pairs[1..]);
      } else {
        assert Reachable(pairs) == Reachable(pairs[1..]);
        assert pairs[0] in pairs && pairs[0].keyword != word;
      }
    }
  }

  lemma NotLostAt(pairs: seq<Pair>, t: Text, i: nat, j: nat)
    requires i <= j < ScanLength(t) && !Lost(pairs, t)
    requires BoundaryBefore(t, i) && BoundaryAfter(t, ScanLength(t), j + 1)
    ensures forall p | p in pairs && p.keyword == t[i..j + 1] :: Plain(t[i..j + 1])
  {
    WordInPrefix(t, ScanLength(t), t[i..j + 1], i);
  }

  lemma {:induction false} MatchesFromAgree(pairs: seq<Pair>, t: Text, i: nat, j: nat)
    requires i <= j <= ScanLength(t) && BoundaryBefore(t, i) && !Lost(pairs, t)
    ensures MatchesFrom(Reachable(pairs), t, ScanLength(t), i, j) == MatchesFrom(pairs, t, ScanLength(t), i, j)
    decreases ScanLength(t) - j
  {
    if j < ScanLength(t) {
      if BoundaryAfter(t, ScanLength(t), j + 1) {
        NotLostAt(pairs, t, i, j);
        SpelledAgree(pairs, t[i..j + 1], i);
      }
      MatchesFromAgree(pairs, t, i, j + 1);
    }
  }

  lemma {:induction false} NaiveAgree(pairs: seq<Pair>, t: Text, i: nat)
    requires i <= ScanLength(t) && !Lost(pairs, t)
    ensures Naive(Reachable(pairs), t, ScanLength(t), i) == Naive(pairs, t, ScanLength(t), i)
    decreases ScanLength(t) - i
  {
    if i < ScanLength(t) {
      if BoundaryBefore(t, i) { MatchesFromAgree(pairs, t, i, i); }
      NaiveAgree(pairs, t, i + 1);
    }
  }

  /** On each text, the trie's scan is the naive scan of all inserted pairs exactly when no keyword
    * with a surrogate pair stands as a whole word in the scanned part. */
  lemma ScanIsNaiveExactly(pairs: seq<Pair>, t: Text)
    ensures NaiveScan(Reachable(pairs), t) == NaiveScan(pairs, t) <==> !Lost(pairs, t)
  {
    if Lost(pairs, t) {
      var p :| p in pairs && !Plain(p.keyword) && HasWord(t[..ScanLength(t)], p.keyword);
      var i: nat :| WordAt(t[..ScanLength(t)], ScanLength(t), p.keyword, i);
      var m := Match(p.keyword, p.dimension, i);
      assert Pair(m.keyword, m.dimension) == p;
      WordInPrefix(t, ScanLength(t), p.keyword, i);
      ReachableContents(pairs, p);
      NaiveContents(pairs, t, ScanLength(t), 0, m);
      NaiveContents(Reachable(pairs), t, ScanLength(t), 0, m);
    } else {
      NaiveAgree(pairs, t, 0);
    }
  }

  /** A scan can find the keyword in some text. */
  predicate Findable(p: Pair) {
    Plain(p.keyword) || |p.keyword| > 100_000
  }

  /** So the two agree on every text exactly when each keyword is free of surrogate pairs or longer
    * than any text that is scanned. */
  lemma ScanIsNaiveEverywhere(pairs: seq<Pair>)
    ensures (forall t :: NaiveScan(Reachable(pairs), t) == NaiveScan(pairs, t)) <==>
            (forall p | p in pairs :: Findable(p))
  {
    if forall p | p in pairs :: Findable(p) {
      forall t ensures NaiveScan(Reachable(pairs), t) == NaiveScan(pairs, t) {
        ScanIsNaiveExactly(pairs, t);
      }
    } else {
      var p :| p in pairs && !Findable(p);
      var t := p.keyword;
      assert t[..ScanLength(t)] == t && t[0..0 + |t|] == t;
      assert WordAt(t, |t|, t, 0);
      ScanIsNaiveExactly(pairs, t);
    }
  }
}
