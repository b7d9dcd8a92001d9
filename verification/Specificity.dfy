/** Detecting the specificity category of a request: additive scores and a thresholded maximum. */
module Specificity {
  import opened Prelude

  datatype Category =
    | Coding | WebBrowsing | DataAnalysis | ImageGeneration | VideoGeneration
    | SocialMedia | EmailManagement | CalendarManagement | Trading

  const CATEGORIES: seq<Category> := [
    Coding, WebBrowsing, DataAnalysis, ImageGeneration, VideoGeneration,
    SocialMedia, EmailManagement, CalendarManagement, Trading]

  lemma EveryCategoryListed(c: Category)
    ensures c in CATEGORIES
  {
    match c {
      case Coding => assert CATEGORIES[0] == c;
      case WebBrowsing => assert CATEGORIES[1] == c;
      case DataAnalysis => assert CATEGORIES[2] == c;
      case ImageGeneration => assert CATEGORIES[3] == c;
      case VideoGeneration => assert CATEGORIES[4] == c;
      case SocialMedia => assert CATEGORIES[5] == c;
      case EmailManagement => assert CATEGORIES[6] == c;
      case CalendarManagement => assert CATEGORIES[7] == c;
      case Trading => assert CATEGORIES[8] == c;
    }
  }

  function DimensionToCategory(dimension: string): Option<Category> {
    if dimension in ["codeGeneration", "codeReview", "technicalTerms", "codeToProse"] then Some(Coding)
    else if dimension == "webBrowsing" then Some(WebBrowsing)
    else if dimension in ["domainSpecificity", "dataAnalysis"] then Some(DataAnalysis)
    else if dimension == "imageGeneration" then Some(ImageGeneration)
    else if dimension == "videoGeneration" then Some(VideoGeneration)
    else if dimension == "socialMedia" then Some(SocialMedia)
    else if dimension == "emailManagement" then Some(EmailManagement)
    else if dimension == "calendarManagement" then Some(CalendarManagement)
    else if dimension == "trading" then Some(Trading)
    else None
  }

  const TOOL_NAME_PATTERNS: seq<(string, Category)> := [
    ("browser_", WebBrowsing), ("playwright_", WebBrowsing), ("web_", WebBrowsing),
    ("code_", Coding), ("editor_", Coding),
    ("image_", ImageGeneration), ("midjourney_", ImageGeneration), ("firefly_", ImageGeneration), ("leonardo_", ImageGeneration),
    ("video_", VideoGeneration), ("runway_", VideoGeneration), ("sora_", VideoGeneration),
    ("social_", SocialMedia), ("hootsuite_", SocialMedia), ("buffer_", SocialMedia),
    ("email_", EmailManagement), ("gmail_", EmailManagement), ("outlook_", EmailManagement), ("superhuman_", EmailManagement),
    ("calendar_", CalendarManagement), ("gcal_", CalendarManagement), ("calendly_", CalendarManagement), ("reclaim_", CalendarManagement),
    ("trade_", Trading), ("exchange_", Trading), ("robinhood_", Trading), ("kalshi_", Trading), ("coinbase_", Trading)]

  const CODING_TOOL_NAMES: set<string> := {"str_replace", "str_replace_editor", "apply_patch", "multiedit", "notebookedit"}

  const TOOL_MATCH_WEIGHT := 3.0
  const STICKY_WINDOW: nat := 3
  const STICKY_BIAS := 2.0

  datatype Match = Match(keyword: string, dimension: string)

  /** What the text patterns found. */
  datatype Signals = Signals(url: bool, bareHost: bool, codeFence: bool, filePath: bool, stackTrace: bool)

  /** A request as the detector sees it. Tool names are lowered, and absent where a tool has none;
    * `signals` is absent when there is no text; each category has at most one penalty. */
  datatype Request = Request(
    matches: seq<Match>,
    tools: seq<Option<string>>,
    signals: Option<Signals>,
    recent: seq<Category>,
    penalties: map<Category, real>)

  /** The fixed keyword weights and the threshold of each category. */
  datatype Tuning = Tuning(weightFor: string -> real, threshold: Category -> real)

  // ----- a category's score -----------------------------------------------------------------------------------

  function FirstPattern(patterns: seq<(string, Category)>, name: string): Option<Category> {
    if patterns == [] then None
    else if patterns[0].0 <= name then Some(patterns[0].1)
    else FirstPattern(patterns[1..], name)
  }

  function ToolCategory(tool: Option<string>): Option<Category> {
    if tool.None? || tool.value == "" then None else FirstPattern(TOOL_NAME_PATTERNS, tool.value)
  }

  function MatchScore(m: Match, c: Category, weightFor: string -> real): real {
    if DimensionToCategory(m.dimension) == Some(c) then weightFor(m.keyword) else 0.0
  }

  function ToolScore(tool: Option<string>, c: Category): real {
    if ToolCategory(tool) == Some(c) then TOOL_MATCH_WEIGHT else 0.0
  }

  function SumOver<T>(xs: seq<T>, f: T -> real): real {
    if xs == [] then 0.0 else SumOver(xs[..|xs| - 1], f) + f(xs[|xs| - 1])
  }

  function MatchScores(c: Category, weightFor: string -> real): Match -> real {
    (m: Match) => MatchScore(m, c, weightFor)
  }

  function ToolScores(c: Category): Option<string> -> real {
    (t: Option<string>) => ToolScore(t, c)
  }

  predicate HasCodingTool(tools: seq<Option<string>>) {
    exists i | 0 <= i < |tools| :: tools[i].Some? && tools[i].value in CODING_TOOL_NAMES
  }

  function Boost(r: Request, c: Category): real {
    if r.signals.None? then 0.0
    else
      var s := r.signals.value;
      match c
      case WebBrowsing => if s.url then 2.0 else if s.bareHost then 1.0 else 0.0
      case Coding =>
        (if s.codeFence then 3.0 else 0.0) + (if s.filePath then 2.0 else 0.0) + (if s.stackTrace then 3.0 else 0.0)
        + (if HasCodingTool(r.tools) then 1.0 else 0.0)
      case _ => 0.0
  }

  predicate Sticks(recent: seq<Category>, c: Category) {
    |recent| >= STICKY_WINDOW && recent[0] == c && recent[1] == c && recent[2] == c
  }

  function Positive(x: real): real { if x > 0.0 then x else 0.0 }

  /** The final score: keyword weights, tools, signals and stickiness add up; a penalty comes off last. */
  function Score(r: Request, t: Tuning, c: Category): real {
    var sum := SumOver(r.matches, MatchScores(c, t.weightFor)) + SumOver(r.tools, ToolScores(c)) + Boost(r, c)
               + (if Sticks(r.recent, c) then STICKY_BIAS else 0.0);
    if c in r.penalties then Positive(sum - r.penalties[c]) else sum
  }

  type Scores = map<Category, real>

  lemma SumNext<T>(xs: seq<T>, i: nat, f: T -> real)
    requires i < |xs|
    ensures SumOver(xs[..i + 1], f) == SumOver(xs[..i], f) + f(xs[i])
  {
    assert xs[..i + 1][..i] == xs[..i];
  }

  method AddMatches(before: Scores, matches: seq<Match>, weightFor: string -> real) returns (scores: Scores)
    requires forall c :: c in before
    ensures forall c :: c in scores && scores[c] == before[c] + SumOver(matches, MatchScores(c, weightFor))
  {
    scores := before;
    var i := 0;
    while i < |matches|
      invariant i <= |matches|
      invariant forall c :: c in scores && scores[c] == before[c] + SumOver(matches[..i], MatchScores(c, weightFor))
    {
      hide SumOver, DimensionToCategory;
      assert forall c :: SumOver(matches[..i + 1], MatchScores(c, weightFor)) ==
                         SumOver(matches[..i], MatchScores(c, weightFor)) + MatchScore(matches[i], c, weightFor) by {
        forall c { SumNext(matches, i, MatchScores(c, weightFor)); }
      }
      var cat := DimensionToCategory(matches[i].dimension);
      if cat.Some? {
        scores := scores[cat.value := scores[cat.value] + weightFor(matches[i].keyword)];
      }
      i := i + 1;
    }
    assert matches[..i] == matches;
  }

  method ApplyToolHeuristics(before: Scores, tools: seq<Option<string>>) returns (scores: Scores)
    requires forall c :: c in before
    ensures forall c :: c in scores && scores[c] == before[c] + SumOver(tools, ToolScores(c))
  {
    scores := before;
    var i := 0;
    while i < |tools|
      invariant i <= |tools|
      invariant forall c :: c in scores && scores[c] == before[c] + SumOver(tools[..i], ToolScores(c))
    {
      assert tools[..i + 1][..i] == tools[..i];
      var cat := ToolCategory(tools[i]);
      if cat.Some? {
        scores := scores[cat.value := scores[cat.value] + TOOL_MATCH_WEIGHT];
      }
      i := i + 1;
    }
    assert tools[..i] == tools;
  }

  method ApplySessionBias(before: Scores, recent: seq<Category>) returns (scores: Scores)
    requires forall c :: c in before
    ensures forall c :: c in scores && scores[c] == before[c] + (if Sticks(recent, c) then STICKY_BIAS else 0.0)
  {
    scores := before;
    if |recent| < STICKY_WINDOW { return; }
    var first := recent[0];
    if recent[1] != first || recent[2] != first { return; }
    scores := scores[first := scores[first] + STICKY_BIAS];
  }

  method ComputeScores(r: Request, t: Tuning) returns (scores: Scores)
    ensures forall c :: c in scores && scores[c] == Score(r, t, c)
  {
    hide SumOver, Boost, MatchScores, ToolScores;
    forall c { EveryCategoryListed(c); }
    scores := map c | c in CATEGORIES :: 0.0;
    scores := AddMatches(scores, r.matches, t.weightFor);
    scores := ApplyToolHeuristics(scores, r.tools);
    scores := map c | c in scores :: scores[c] + Boost(r, c);
    scores := ApplySessionBias(scores, r.recent);
    scores := map c | c in scores :: if c in r.penalties then Positive(scores[c] - r.penalties[c]) else scores[c];
  }

  // ----- the best category ---------------------------------------------------------------------------------------

  datatype Detected = Detected(category: Category, confidence: real)

  ghost predicate Eligible(r: Request, t: Tuning, c: Category) {
    Score(r, t, c) >= t.threshold(c) && Score(r, t, c) > 0.0
  }

  function IndexOf(c: Category): (i: nat)
    ensures i < |CATEGORIES| && CATEGORIES[i] == c
  {
    match c
    case Coding => 0
    case WebBrowsing => 1
    case DataAnalysis => 2
    case ImageGeneration => 3
    case VideoGeneration => 4
    case SocialMedia => 5
    case EmailManagement => 6
    case CalendarManagement => 7
    case Trading => 8
  }

  /** `c` is eligible, no eligible category scores higher, and none before it as high. */
  ghost predicate IsBest(r: Request, t: Tuning, c: Category) {
    && Eligible(r, t, c)
    && forall d | Eligible(r, t, d) ::
         Score(r, t, d) <= Score(r, t, c) && (Score(r, t, d) == Score(r, t, c) ==> IndexOf(c) <= IndexOf(d))
  }

  /** `Math.min(score / (threshold * 3), 1)`, where dividing by zero gives infinity. */
  function Confidence(score: real, threshold: real): real {
    if threshold == 0.0 then 1.0
    else
      var ratio := score / (threshold * 3.0);
      if ratio < 1.0 then ratio else 1.0
  }

  /** Detection without a header override: nothing exactly when no positive score reaches its
    * threshold, else the earliest category of maximal score among those that do. */
  method DetectSpecificity(r: Request, t: Tuning) returns (d: Option<Detected>)
    ensures d.None? <==> forall c :: !Eligible(r, t, c)
    ensures d.Some? ==> IsBest(r, t, d.value.category)
    ensures d.Some? ==> var c := d.value.category; d.value.confidence == Confidence(Score(r, t, c), t.threshold(c))
  {
    hide Score, IndexOf;
    var scores := ComputeScores(r, t);
    var best: Option<Category> := None;
    var bestScore := 0.0;
    var i := 0;
    while i < |CATEGORIES|
      invariant i <= |CATEGORIES|
      invariant best.None? ==> bestScore == 0.0
      invariant best.Some? ==> bestScore == Score(r, t, best.value) && bestScore > 0.0 && Eligible(r, t, best.value) && IndexOf(best.value) < i
      invariant forall d :: Eligible(r, t, d) && IndexOf(d) < i ==>
        best.Some? && Score(r, t, d) <= bestScore && (Score(r, t, d) == bestScore ==> IndexOf(best.value) <= IndexOf(d))
    {
      var cat := CATEGORIES[i];
      IndexIsInverse(i);
      var score := scores[cat];
      if score >= t.threshold(cat) && score > bestScore {
        best, bestScore := Some(cat), score;
      }
      i := i + 1;
    }
    if best.None? {
      return None;
    }
    var threshold := t.threshold(best.value);
    if threshold == 0.0 {
      return Some(Detected(best.value, 1.0));
    }
    var ratio := bestScore / (threshold * 3.0);
    return Some(Detected(best.value, if ratio < 1.0 then ratio else 1.0));
  }

  lemma IndexIsInverse(i: nat)
    requires i < |CATEGORIES|
    ensures forall c :: IndexOf(c) == i <==> c == CATEGORIES[i]
  {
  }

  /** An eligible score's confidence is positive exactly when its threshold is not negative; it lies in
    * [1/3, 1], is 1 exactly from three times the threshold on, and below that is the score's share of it. */
  lemma ConfidenceBounds(score: real, threshold: real)
    requires score >= threshold && score > 0.0
    ensures Confidence(score, threshold) > 0.0 <==> threshold >= 0.0
    ensures threshold >= 0.0 ==> 1.0 / 3.0 <= Confidence(score, threshold) <= 1.0
    ensures threshold >= 0.0 ==> (Confidence(score, threshold) == 1.0 <==> score >= 3.0 * threshold)
    ensures Confidence(score, threshold) < 1.0 ==> Confidence(score, threshold) * (3.0 * threshold) == score
  {
    if threshold != 0.0 {
      var n := threshold * 3.0;
      var q := score / n;
      assert q * n == score;
      if threshold > 0.0 {
        LessTimes(q, 1.0 / 3.0, n);
        LessTimes(q, 1.0, n);
        assert q < 1.0 <==> score < n;
        assert Confidence(score, threshold) == if q < 1.0 then q else 1.0;
      } else {
        LessTimes(0.0, q, -n);
        assert q * -n == -score;
      }
    }
  }

  /** With positive thresholds, reaching one is all that eligibility asks. */
  lemma PositiveThresholdsDecide(r: Request, t: Tuning, c: Category)
    requires t.threshold(c) > 0.0
    ensures Eligible(r, t, c) <==> Score(r, t, c) >= t.threshold(c)
  {
  }

  /** At most one category is best. */
  lemma BestIsUnique(r: Request, t: Tuning, c: Category, d: Category)
    requires IsBest(r, t, c) && IsBest(r, t, d)
    ensures c == d
  {
    assert IndexOf(c) == IndexOf(d);
  }

  // ----- what each part of a request adds ---------------------------------------------------------------------------

  lemma {:induction false} SumConcat<T>(xs: seq<T>, x: T, f: T -> real)
    ensures SumOver(xs + [x], f) == SumOver(xs, f) + f(x)
  {
    assert (xs + [x])[..|xs|] == xs;
  }

  /** One more keyword match adds its weight to the category of its dimension, and nothing to any other. */
  lemma MatchAdds(r: Request, t: Tuning, m: Match, c: Category)
    requires c !in r.penalties
    ensures Score(r.(matches := r.matches + [m]), t, c) - Score(r, t, c) ==
      if DimensionToCategory(m.dimension) == Some(c) then t.weightFor(m.keyword) else 0.0
  {
    hide SumOver, Boost, DimensionToCategory;
    SumConcat(r.matches, m, MatchScores(c, t.weightFor));
    assert r.(matches := r.matches + [m]).tools == r.tools && Boost(r.(matches := r.matches + [m]), c) == Boost(r, c) by { SameBoost(r, r.(matches := r.matches + [m]), c); }
  }

  lemma SameBoost(r: Request, s: Request, c: Category)
    requires r.signals == s.signals && r.tools == s.tools
    ensures Boost(r, c) == Boost(s, c)
  {
  }

  /** Pattern `i` is the first in the list that the tool's name starts with. */
  predicate FirstMatch(name: string, i: nat) {
    i < |TOOL_NAME_PATTERNS| && TOOL_NAME_PATTERNS[i].0 <= name && forall j | 0 <= j < i :: !(TOOL_NAME_PATTERNS[j].0 <= name)
  }

  lemma {:induction false} FirstPatternExactly(patterns: seq<(string, Category)>, name: string, i: nat)
    requires i < |patterns| && patterns[i].0 <= name && forall j | 0 <= j < i :: !(patterns[j].0 <= name)
    ensures FirstPattern(patterns, name) == Some(patterns[i].1)
  {
    if i > 0 {
      assert forall j | 0 <= j < |patterns| - 1 :: patterns[1..][j] == patterns[j + 1];
      FirstPatternExactly(patterns[1..], name, i - 1);
    }
  }

  lemma {:induction false} NoPattern(patterns: seq<(string, Category)>, name: string)
    requires forall j | 0 <= j < |patterns| :: !(patterns[j].0 <= name)
    ensures FirstPattern(patterns, name) == None
  {
    if patterns != [] { NoPattern(patterns[1..], name); }
  }

  /** A named tool counts three points for the category of the first pattern its name starts with. */
  lemma ToolCounts(name: string, c: Category)
    requires name != ""
    ensures forall i: nat | FirstMatch(name, i) :: ToolScore(Some(name), c) == if TOOL_NAME_PATTERNS[i].1 == c then 3.0 else 0.0
    ensures (forall i: nat | i < |TOOL_NAME_PATTERNS| :: !(TOOL_NAME_PATTERNS[i].0 <= name)) ==> ToolScore(Some(name), c) == 0.0
    ensures ToolScore(None, c) == 0.0 && ToolScore(Some(""), c) == 0.0
  {
    hide FirstPattern;
    forall i: nat | FirstMatch(name, i) ensures ToolScore(Some(name), c) == if TOOL_NAME_PATTERNS[i].1 == c then 3.0 else 0.0 {
      FirstPatternExactly(TOOL_NAME_PATTERNS, name, i);
    }
    if forall i: nat | i < |TOOL_NAME_PATTERNS| :: !(TOOL_NAME_PATTERNS[i].0 <= name) { NoPattern(TOOL_NAME_PATTERNS, name); }
  }

  /** A tool adds its points to its category; with text, the first coding tool also adds one to coding. */
  lemma ToolAdds(r: Request, t: Tuning, tool: Option<string>, c: Category)
    requires c !in r.penalties
    ensures var more := r.(tools := r.tools + [tool]);
      Score(more, t, c) - Score(r, t, c) ==
        ToolScore(tool, c) + (if c == Coding && r.signals.Some? && !HasCodingTool(r.tools) && HasCodingTool([tool]) then 1.0 else 0.0)
  {
    hide SumOver, ToolCategory;
    var more := r.(tools := r.tools + [tool]);
    SumConcat(r.tools, tool, ToolScores(c));
    assert HasCodingTool(more.tools) <==> HasCodingTool(r.tools) || HasCodingTool([tool]) by { MoreTools(r.tools, tool); }
  }

  lemma MoreTools(tools: seq<Option<string>>, tool: Option<string>)
    ensures HasCodingTool(tools + [tool]) <==> HasCodingTool(tools) || HasCodingTool([tool])
  {
    if i :| 0 <= i < |tools| && tools[i].Some? && tools[i].value in CODING_TOOL_NAMES { assert (tools + [tool])[i] == tools[i]; }
    if HasCodingTool([tool]) { assert (tools + [tool])[|tools|] == tool; }
  }

  /** What the text's signals add: for web browsing a URL two points, or else a bare host one; for coding a
    * code fence three, a file path two and a stack trace three, and one for a coding tool; nothing else. */
  lemma SignalsAdd(r: Request, s: Signals, t: Tuning, c: Category)
    requires r.signals.None? && c !in r.penalties
    ensures Score(r.(signals := Some(s)), t, c) - Score(r, t, c) ==
      if c == WebBrowsing then (if s.url then 2.0 else if s.bareHost then 1.0 else 0.0)
      else if c == Coding then
        (if s.codeFence then 3.0 else 0.0) + (if s.filePath then 2.0 else 0.0) + (if s.stackTrace then 3.0 else 0.0)
        + (if exists i | 0 <= i < |r.tools| :: r.tools[i].Some? && r.tools[i].value in CODING_TOOL_NAMES then 1.0 else 0.0)
      else 0.0
  {
    hide SumOver;
  }

  /** Three agreeing recent messages add two points to their category. */
  lemma HistoryAdds(r: Request, t: Tuning, c: Category)
    requires c !in r.penalties
    ensures Score(r, t, c) - Score(r.(recent := []), t, c) ==
      if |r.recent| >= 3 && (forall i | 0 <= i < 3 :: r.recent[i] == c) then 2.0 else 0.0
  {
    hide SumOver;
    SameBoost(r, r.(recent := []), c);
    hide Boost;
    assert (|r.recent| >= 3 && forall i | 0 <= i < 3 :: r.recent[i] == c) ==> r.recent[0] == r.recent[1] == r.recent[2] == c;
  }

  /** A penalty comes off the sum of its category, but not below zero, and touches no other. */
  lemma PenaltyComesOff(r: Request, t: Tuning, c: Category, d: Category, p: real)
    requires d !in r.penalties
    ensures var s := Score(r, t, c);
      Score(r.(penalties := r.penalties[d := p]), t, c) == if c != d then s else if s - p > 0.0 then s - p else 0.0
  {
    hide SumOver;
    SameBoost(r, r.(penalties := r.penalties[d := p]), c);
    hide Boost;
  }

  // ----- order does not matter ------------------------------------------------------------------------------------

  lemma {:induction false} SumRemove<T>(xs: seq<T>, i: nat, f: T -> real)
    requires i < |xs|
    ensures SumOver(xs, f) == SumOver(xs[..i] + xs[i + 1..], f) + f(xs[i])
    decreases |xs|
  {
    var n := |xs| - 1;
    var rest := xs[..i] + xs[i + 1..];
    if i == n {
      assert rest == xs[..n];
    } else {
      SumRemove(xs[..n], i, f);
      assert rest[..|rest| - 1] == xs[..n][..i] + xs[..n][i + 1..];
      assert rest[|rest| - 1] == xs[n];
    }
  }

  lemma {:induction false} SumIgnoresOrder<T>(xs: seq<T>, ys: seq<T>, f: T -> real)
    requires multiset(xs) == multiset(ys)
    ensures SumOver(xs, f) == SumOver(ys, f)
    decreases |xs|
  {
    if xs == [] {
      assert |multiset(ys)| == 0;
    } else {
      var n := |xs| - 1;
      assert xs == xs[..n] + [xs[n]];
      assert xs[n] in multiset(ys);
      var i :| 0 <= i < |ys| && ys[i] == xs[n];
      assert ys == ys[..i] + [ys[i]] + ys[i + 1..];
      var rest := ys[..i] + ys[i + 1..];
      assert multiset(rest) == multiset(ys) - multiset{ys[i]};
      SumRemove(ys, i, f);
      SumIgnoresOrder(xs[..n], rest, f);
    }
  }

  lemma SameTools(a: seq<Option<string>>, b: seq<Option<string>>)
    requires multiset(a) == multiset(b)
    ensures HasCodingTool(a) ==> HasCodingTool(b)
  {
    if i :| 0 <= i < |a| && a[i].Some? && a[i].value in CODING_TOOL_NAMES {
      assert a[i] in multiset(b);
    }
  }

  /** Permuting the keyword matches and the tools changes no score, hence not the answer. */
  lemma DetectionIgnoresOrder(r: Request, s: Request, t: Tuning, c: Category)
    requires multiset(r.matches) == multiset(s.matches) && multiset(r.tools) == multiset(s.tools)
    requires r.signals == s.signals && r.recent == s.recent && r.penalties == s.penalties
    ensures Score(r, t, c) == Score(s, t, c)
  {
    SumIgnoresOrder(r.matches, s.matches, MatchScores(c, t.weightFor));
    SumIgnoresOrder(r.tools, s.tools, ToolScores(c));
    SameTools(r.tools, s.tools);
    SameTools(s.tools, r.tools);
  }

  /** So the best category is the same. */
  lemma BestIgnoresOrder(r: Request, s: Request, t: Tuning, c: Category)
    requires multiset(r.matches) == multiset(s.matches) && multiset(r.tools) == multiset(s.tools)
    requires r.signals == s.signals && r.recent == s.recent && r.penalties == s.penalties
    ensures IsBest(r, t, c) <==> IsBest(s, t, c)
  {
    forall d ensures Score(r, t, d) == Score(s, t, d) {
      DetectionIgnoresOrder(r, s, t, d);
    }
  }
}
