/** The event-stream parser: it cuts the body into blocks and each block into lines. What it computes
  * is stated by a machine that reads one line at a time and dispatches at blank lines.
  */
module ServerSentEvents {
  import opened Prelude

  datatype Event = Event(name: string, id: Option<string>, data: string)

  // ----- text and lines --------------------------------------------------------------------------------

  /** `replace(/\r\n?/g, '\n')` */
  function Normalize(s: string): string {
    if s == "" then ""
    else if s[0] != '\r' then [s[0]] + Normalize(s[1..])
    else "\n" + Normalize(if |s| > 1 && s[1] == '\n' then s[2..] else s[1..])
  }

  /** `split('\n')` */
  function Lines(s: string): (r: seq<string>)
    ensures r != []
  {
    if s == "" then [""]
    else
      var rest := Lines(s[1..]);
      if s[0] == '\n' then [""] + rest else [[s[0]] + rest[0]] + rest[1..]
  }

  /** Where the first two newlines in a row start. */
  function BreakAt(s: string): (r: Option<nat>)
    ensures r.Some? ==> IsBreak(s, r.value) && forall j | 0 <= j < r.value :: !IsBreak(s, j)
    ensures r.None? ==> forall j: nat :: !IsBreak(s, j)
  {
    if |s| < 2 then None
    else if IsBreak(s, 0) then Some(0)
    else
      var r := BreakAt(s[1..]);
      assert forall j: nat | j > 0 :: IsBreak(s, j) <==> IsBreak(s[1..], j - 1);
      if r.Some? then Some(r.value + 1) else None
  }

  predicate IsBreak(s: string, j: nat) {
    j + 1 < |s| && s[j] == '\n' && s[j + 1] == '\n'
  }

  function SkipNewlines(s: string): (r: string)
    ensures |r| <= |s|
  {
    if s != "" && s[0] == '\n' then SkipNewlines(s[1..]) else s
  }

  /** `split(/\n\n+/)` */
  function Blocks(s: string): seq<string>
    decreases |s|
  {
    var b := BreakAt(s);
    if b.None? then [s] else [s[..b.value]] + Blocks(SkipNewlines(s[b.value + 2..]))
  }

  // ----- one line --------------------------------------------------------------------------------------

  /** What the lines of a block have set so far. */
  datatype Pending = Pending(name: string, id: Option<string>, dataLines: seq<string>)

  const FRESH := Pending("message", None, [])

  function ColonAt(s: string): (r: Option<nat>)
    ensures r.Some? ==> r.value < |s| && s[r.value] == ':' && ':' !in s[..r.value]
    ensures r.None? ==> ':' !in s
  {
    if s == "" then None
    else if s[0] == ':' then Some(0)
    else
      var r := ColonAt(s[1..]);
      if r.None? then None
      else
        assert s[..r.value + 1] == [s[0]] + s[1..][..r.value];
        Some(r.value + 1)
  }

  function FieldOf(line: string): string {
    var c := ColonAt(line);
    if c.None? then line else line[..c.value]
  }

  function ValueOf(line: string): string {
    var c := ColonAt(line);
    var raw := if c.None? then "" else line[c.value + 1..];
    if raw != "" && raw[0] == ' ' then raw[1..] else raw
  }

  predicate IsComment(line: string) {
    line != "" && line[0] == ':'
  }

  function Accept(st: Pending, line: string): Pending {
    if line == "" || IsComment(line) then st
    else
      var field, value := FieldOf(line), ValueOf(line);
      if field == "event" then (if value != "" then st.(name := value) else st)
      else if field == "id" then st.(id := Some(value))
      else if field == "data" then st.(dataLines := st.dataLines + [value])
      else st
  }

  function Join(lines: seq<string>): string {
    if lines == [] then ""
    else if |lines| == 1 then lines[0]
    else lines[0] + "\n" + Join(lines[1..])
  }

  /** A block without data lines is dropped, name and id included. */
  function Dispatch(st: Pending): seq<Event> {
    if st.dataLines == [] then [] else [Event(st.name, st.id, Join(st.dataLines))]
  }

  // ----- the line machine --------------------------------------------------------------------------------

  /** Reads one line at a time: a blank line dispatches, and so does the end of the stream. */
  function Run(st: Pending, lines: seq<string>): seq<Event>
    decreases |lines|
  {
    if lines == [] then Dispatch(st)
    else if lines[0] == "" then Dispatch(st) + Run(FRESH, lines[1..])
    else Run(Accept(st, lines[0]), lines[1..])
  }

  function AcceptAll(st: Pending, lines: seq<string>): Pending
    decreases |lines|
  {
    if lines == [] then st else AcceptAll(Accept(st, lines[0]), lines[1..])
  }

  function BlockEvents(block: string): seq<Event> {
    Dispatch(AcceptAll(FRESH, Lines(block)))
  }

  function AllBlockEvents(blocks: seq<string>): seq<Event> {
    if blocks == [] then [] else BlockEvents(blocks[0]) + AllBlockEvents(blocks[1..])
  }

  lemma {:induction false} LinesSplit(a: string, b: string)
    ensures Lines(a + "\n" + b) == Lines(a) + Lines(b)
    decreases |a|
  {
    var s := a + "\n" + b;
    if a == "" {
      assert s[1..] == b;
    } else {
      assert s[1..] == a[1..] + "\n" + b;
      LinesSplit(a[1..], b);
    }
  }

  /** Blank lines stand only at the two ends. */
  ghost predicate InnerNonBlank(lines: seq<string>) {
    forall k | 0 < k < |lines| - 1 :: lines[k] != ""
  }

  lemma {:induction false} UnbrokenLines(s: string)
    requires BreakAt(s).None?
    ensures InnerNonBlank(Lines(s))
    decreases |s|
  {
    if s != "" {
      assert forall j: nat :: IsBreak(s[1..], j) <==> IsBreak(s, j + 1);
      UnbrokenLines(s[1..]);
      assert !IsBreak(s, 0);
    }
  }

  lemma {:induction false} RunNonBlank(st: Pending, xs: seq<string>, ys: seq<string>)
    requires forall k | 0 <= k < |xs| :: xs[k] != ""
    ensures Run(st, xs + ys) == Run(AcceptAll(st, xs), ys)
    decreases |xs|
  {
    if xs == [] {
      assert xs + ys == ys;
    } else {
      assert (xs + ys)[1..] == xs[1..] + ys;
      RunNonBlank(Accept(st, xs[0]), xs[1..], ys);
    }
  }

  /** A block whose lines are blank at most at the two ends, followed by the end of the stream. */
  lemma RunLastBlock(lines: seq<string>)
    requires lines != [] && InnerNonBlank(lines)
    ensures Run(FRESH, lines) == Dispatch(AcceptAll(FRESH, lines))
  {
    var xs := if lines[0] == "" then lines[1..] else lines;
    assert Run(FRESH, lines) == Run(FRESH, xs) by {
      if lines[0] == "" { assert [] + Run(FRESH, xs) == Run(FRESH, xs); }
    }
    assert AcceptAll(FRESH, lines) == AcceptAll(FRESH, xs);
    RunTail(FRESH, xs);
  }

  lemma {:induction false} RunTail(st: Pending, xs: seq<string>)
    requires forall k | 0 <= k < |xs| - 1 :: xs[k] != ""
    ensures Run(st, xs) == Dispatch(AcceptAll(st, xs))
    decreases |xs|
  {
    if xs != [] {
      if xs[0] == "" {
        assert xs[1..] == [];
        assert Dispatch(st) + [] == Dispatch(st);
      } else {
        RunTail(Accept(st, xs[0]), xs[1..]);
      }
    }
  }

  /** A block without a trailing blank line, followed by a blank line. */
  lemma RunInnerBlock(lines: seq<string>, rest: seq<string>)
    requires lines != [] && InnerNonBlank(lines) && (lines[|lines| - 1] != "" || |lines| == 1)
    ensures Run(FRESH, lines + [""] + rest) == Dispatch(AcceptAll(FRESH, lines)) + Run(FRESH, rest)
  {
    var xs := if lines[0] == "" then lines[1..] else lines;
    var all := lines + [""] + rest;
    if lines[0] == "" {
      assert all[1..] == xs + ([""] + rest);
      assert [] + Run(FRESH, xs + ([""] + rest)) == Run(FRESH, xs + ([""] + rest));
    } else {
      assert all == xs + ([""] + rest);
    }
    RunNonBlank(FRESH, xs, [""] + rest);
    assert ([""] + rest)[1..] == rest;
  }

  lemma {:induction false} LeadingBlanks(s: string)
    ensures Run(FRESH, Lines(s)) == Run(FRESH, Lines(SkipNewlines(s)))
    decreases |s|
  {
    if s != "" && s[0] == '\n' {
      assert s == "" + "\n" + s[1..];
      LinesSplit("", s[1..]);
      assert Lines(s) == [""] + Lines(s[1..]);
      assert ([""] + Lines(s[1..]))[1..] == Lines(s[1..]);
      assert [] + Run(FRESH, Lines(s[1..])) == Run(FRESH, Lines(s[1..]));
      LeadingBlanks(s[1..]);
    }
  }

  lemma {:induction false} LastLine(s: string)
    requires s != "" && s[|s| - 1] != '\n'
    ensures var lines := Lines(s); lines[|lines| - 1] != ""
    decreases |s|
  {
    if |s| > 1 { LastLine(s[1..]); }
  }

  /** The lines of a text around its first break: those of the block, a blank one, those after it. */
  lemma LinesAtBreak(s: string)
    requires BreakAt(s).Some?
    ensures var b := BreakAt(s).value;
      Lines(s) == Lines(s[..b]) + [""] + Lines(s[b + 2..])
  {
    var b := BreakAt(s).value;
    var block, rest := s[..b], s[b + 2..];
    assert s == block + "\n" + ("" + "\n" + rest);
    LinesSplit(block, "" + "\n" + rest);
    LinesSplit("", rest);
  }

  /** A block before a break has blank lines at most at its start. */
  lemma BlockLines(s: string)
    requires BreakAt(s).Some?
    ensures var lines := Lines(s[..BreakAt(s).value]);
      InnerNonBlank(lines) && (lines[|lines| - 1] != "" || |lines| == 1)
  {
    var block := s[..BreakAt(s).value];
    assert forall j: nat | IsBreak(block, j) :: IsBreak(s, j);
    UnbrokenLines(block);
    assert block != "" && block[|block| - 1] == '\n' ==> IsBreak(s, |block| - 1);
    if block != "" { LastLine(block); }
  }

  /** Parsing block by block computes exactly what the line machine computes on the whole text. */
  lemma {:induction false} BlocksRefineLines(s: string)
    ensures AllBlockEvents(Blocks(s)) == Run(FRESH, Lines(s))
    decreases |s|
  {
    var b := BreakAt(s);
    if b.None? {
      UnbrokenLines(s);
      RunLastBlock(Lines(s));
      assert Blocks(s)[1..] == [];
      assert BlockEvents(s) + [] == BlockEvents(s);
    } else {
      var block, rest := s[..b.value], s[b.value + 2..];
      LinesAtBreak(s);
      BlockLines(s);
      RunInnerBlock(Lines(block), Lines(rest));
      LeadingBlanks(rest);
      BlocksRefineLines(SkipNewlines(rest));
      assert Blocks(s)[1..] == Blocks(SkipNewlines(rest));
    }
  }

  /** The loop over the lines of one block. */
  method ReadBlock(block: string) returns (st: Pending)
    ensures st == AcceptAll(FRESH, Lines(block))
  {
    st := FRESH;
    var lines := Lines(block);
    var j := 0;
    while j < |lines|
      invariant j <= |lines| && AcceptAll(st, lines[j..]) == AcceptAll(FRESH, lines)
    {
      var line := lines[j];
      assert lines[j..][1..] == lines[j + 1..];
      j := j + 1;
      if line == "" || line[0] == ':' { continue; }
      var field, value := FieldOf(line), ValueOf(line);
      if field == "event" && value != "" { st := st.(name := value); }
      if field == "id" { st := st.(id := Some(value)); }
      if field == "data" { st := st.(dataLines := st.dataLines + [value]); }
    }
  }

  /** The loop over the blocks. */
  method ReadBlocks(blocks: seq<string>) returns (events: seq<Event>)
    ensures events == AllBlockEvents(blocks)
  {
    hide Lines, AcceptAll, Join;
    events := [];
    ghost var all := AllBlockEvents(blocks);
    var i := 0;
    assert blocks[0..] == blocks && [] + all == all;
    while i < |blocks|
      invariant i <= |blocks| && events + AllBlockEvents(blocks[i..]) == all
    {
      ghost var before, here, after := events, BlockEvents(blocks[i]), AllBlockEvents(blocks[i + 1..]);
      assert blocks[i..][1..] == blocks[i + 1..] && blocks[i..][0] == blocks[i];
      assert before + (here + after) == (before + here) + after;
      var st := ReadBlock(blocks[i]);
      assert here == Dispatch(st);
      i := i + 1;
      if |st.dataLines| == 0 {
        assert before + here == before;
        continue;
      }
      events := events + [Event(st.name, st.id, Join(st.dataLines))];
    }
    assert events + [] == events;
  }

  /** The parser computes what the line machine computes on the normalized text. */
  method ParseServerSentEvents(body: string) returns (events: seq<Event>)
    ensures events == Run(FRESH, Lines(Normalize(body)))
  {
    BlocksRefineLines(Normalize(body));
    events := ReadBlocks(Blocks(Normalize(body)));
  }

  // ----- line endings --------------------------------------------------------------------------------------

  predicate Plain(line: string) {
    '\r' !in line && '\n' !in line
  }

  /** The lines with `eol` between them. */
  function Joined(lines: seq<string>, eol: string): string {
    if lines == [] then "" else if |lines| == 1 then lines[0] else lines[0] + eol + Joined(lines[1..], eol)
  }

  lemma {:induction false} NormalizePlain(line: string, rest: string)
    requires '\r' !in line
    ensures Normalize(line + rest) == line + Normalize(rest)
  {
    if line == "" {
      assert line + rest == rest;
    } else {
      assert (line + rest)[1..] == line[1..] + rest;
      NormalizePlain(line[1..], rest);
    }
  }

  predicate IsEol(eol: string) {
    eol == "\n" || eol == "\r\n" || eol == "\r"
  }

  lemma NormalizeEol(eol: string, rest: string)
    requires IsEol(eol) && (eol == "\r" && rest != "" ==> rest[0] != '\n')
    ensures Normalize(eol + rest) == "\n" + Normalize(rest)
  {
    assert (eol + rest)[|eol|..] == rest;
    if eol == "\r" && rest != "" { assert (eol + rest)[1] == rest[0]; }
  }

  lemma JoinedStart(lines: seq<string>, eol: string)
    requires IsEol(eol) && forall l | l in lines :: Plain(l)
    ensures eol == "\r" && Joined(lines, eol) != "" ==> Joined(lines, eol)[0] != '\n'
  {
    if lines != [] { assert Plain(lines[0]); }
  }

  lemma LineNormalizes(line: string, eol: string, rest: string)
    requires '\r' !in line && IsEol(eol) && (eol == "\r" && rest != "" ==> rest[0] != '\n')
    ensures Normalize(line + eol + rest) == line + "\n" + Normalize(rest)
  {
    hide Normalize;
    NormalizePlain(line, eol + rest);
    NormalizeEol(eol, rest);
    assert line + (eol + rest) == line + eol + rest;
    assert line + ("\n" + Normalize(rest)) == line + "\n" + Normalize(rest);
  }

  lemma {:induction false} JoinedNormalizes(lines: seq<string>, eol: string)
    requires IsEol(eol) && forall l | l in lines :: Plain(l)
    ensures Normalize(Joined(lines, eol)) == Joined(lines, "\n")
  {
    if |lines| == 1 {
      assert Plain(lines[0]);
      NormalizePlain(lines[0], "");
      assert lines[0] + "" == lines[0];
    } else if lines != [] {
      assert Plain(lines[0]);
      JoinedNormalizes(lines[1..], eol);
      JoinedStart(lines[1..], eol);
      LineNormalizes(lines[0], eol, Joined(lines[1..], eol));
    }
  }

  lemma {:induction false} PlainIsOneLine(line: string)
    requires Plain(line)
    ensures Lines(line) == [line]
  {
    if line != "" {
      PlainIsOneLine(line[1..]);
      assert [line[0]] + line[1..] == line;
    }
  }

  lemma {:induction false} JoinedLines(lines: seq<string>)
    requires lines != [] && forall l | l in lines :: Plain(l)
    ensures Lines(Joined(lines, "\n")) == lines
  {
    PlainIsOneLine(lines[0]);
    if |lines| > 1 {
      LinesSplit(lines[0], Joined(lines[1..], "\n"));
      JoinedLines(lines[1..]);
    }
  }

  /** The parse depends on the lines alone: LF, CRLF and CR endings give the same events, and a final
    * line without an ending is read like any other. */
  lemma LineEndingsAgree(lines: seq<string>, eol: string)
    requires lines != [] && forall l | l in lines :: Plain(l)
    requires IsEol(eol)
    ensures Run(FRESH, Lines(Normalize(Joined(lines, eol)))) == Run(FRESH, lines)
  {
    JoinedNormalizes(lines, eol);
    JoinedLines(lines);
  }

  // ----- what a line says ------------------------------------------------------------------------------------

  /** The line gives the field this value: after a colon, with or without one space, or as a bare field
    * without a value. */
  predicate Says(line: string, field: string, value: string) {
    && ':' !in field
    && (|| line == field + ": " + value
        || (line == field + ":" + value && (value == "" || value[0] != ' '))
        || (line == field && value == ""))
  }

  lemma ColonReads(field: string, raw: string)
    requires ':' !in field
    ensures FieldOf(field + ":" + raw) == field
    ensures ValueOf(field + ":" + raw) == if raw != "" && raw[0] == ' ' then raw[1..] else raw
  {
    var line := field + ":" + raw;
    var c := ColonAt(line);
    assert line[|field|] == ':';
    assert line[..|field|] == field && line[|field| + 1..] == raw;
    PrefixHas(line, c.value, |field|);
    PrefixHas(line, |field|, c.value);
  }

  lemma FieldReads(field: string, value: string)
    requires ':' !in field
    ensures FieldOf(field + ": " + value) == field && ValueOf(field + ": " + value) == value
  {
    assert field + ": " + value == field + ":" + (" " + value);
    ColonReads(field, " " + value);
  }

  /** A line gives exactly one field exactly one value, the ones the parser reads. */
  lemma SaysExactly(line: string, field: string, value: string)
    ensures Says(line, field, value) <==> FieldOf(line) == field && ValueOf(line) == value
  {
    if Says(line, field, value) {
      if line == field + ": " + value {
        FieldReads(field, value);
      } else if line == field + ":" + value {
        ColonReads(field, value);
      }
    }
    var c := ColonAt(line);
    if c.Some? {
      var raw := line[c.value + 1..];
      assert line == line[..c.value] + ":" + raw;
      if raw != "" && raw[0] == ' ' { assert line == line[..c.value] + ": " + raw[1..]; }
    }
  }

  lemma RunFirst(st: Pending, line: string, rest: seq<string>)
    ensures Run(st, [line] + rest) == if line == "" then Dispatch(st) + Run(FRESH, rest) else Run(Accept(st, line), rest)
  {
    assert ([line] + rest)[1..] == rest;
  }

  /** Comments, fields of other names such as retry, and an empty event name say nothing. */
  ghost predicate Silent(line: string) {
    line != "" && (IsComment(line) || Says(line, "event", "")
                   || exists field, value :: Says(line, field, value) && field != "event" && field != "id" && field != "data")
  }

  lemma SilentChangesNothing(st: Pending, line: string)
    requires Silent(line)
    ensures line != "" && Accept(st, line) == st
  {
    if Says(line, "event", "") {
      SaysExactly(line, "event", "");
    } else if !IsComment(line) {
      var field, value :| Says(line, field, value) && field != "event" && field != "id" && field != "data";
      SaysExactly(line, field, value);
    }
  }

  /** A silent line may be inserted anywhere. */
  lemma {:induction false} SilentLinesAreInvisible(st: Pending, before: seq<string>, line: string, after: seq<string>)
    requires Silent(line)
    ensures Run(st, before + [line] + after) == Run(st, before + after)
    decreases |before|
  {
    hide Accept, Silent;
    var all := before + [line] + after;
    if before == [] {
      SilentChangesNothing(st, line);
      assert all == [line] + after && before + after == after;
      RunFirst(st, line, after);
    } else {
      assert all == [before[0]] + (before[1..] + [line] + after);
      assert before + after == [before[0]] + (before[1..] + after);
      RunFirst(st, before[0], before[1..] + [line] + after);
      RunFirst(st, before[0], before[1..] + after);
      SilentLinesAreInvisible(if before[0] == "" then FRESH else Accept(st, before[0]), before[1..], line, after);
    }
  }

  /** So may a comment line. */
  lemma CommentsAreInvisible(st: Pending, before: seq<string>, comment: string, after: seq<string>)
    requires IsComment(comment)
    ensures Run(st, before + [comment] + after) == Run(st, before + after)
  {
    SilentLinesAreInvisible(st, before, comment, after);
  }

  /** The line names no event and gives no id, respectively. */
  ghost predicate Unnamed(line: string) {
    forall v :: Says(line, "event", v) ==> v == ""
  }

  ghost predicate Anonymous(line: string) {
    forall v :: !Says(line, "id", v)
  }

  lemma LineLeavesNameAndId(st: Pending, line: string)
    ensures Unnamed(line) ==> Accept(st, line).name == st.name
    ensures Anonymous(line) ==> Accept(st, line).id == st.id
    ensures forall v | Says(line, "event", v) && v != "" :: Accept(st, line).name == v
    ensures forall v | Says(line, "id", v) :: Accept(st, line).id == Some(v)
  {
    SaysExactly(line, FieldOf(line), ValueOf(line));
    forall v | Says(line, "event", v) && v != "" ensures Accept(st, line).name == v { SaysExactly(line, "event", v); }
    forall v | Says(line, "id", v) ensures Accept(st, line).id == Some(v) { SaysExactly(line, "id", v); }
  }

  /** Within a block the last name that is not empty counts, and the last id. */
  lemma {:induction false} LastNameAndIdCount(st: Pending, lines: seq<string>, i: nat)
    requires i < |lines|
    ensures (forall j | i < j < |lines| :: Unnamed(lines[j])) ==>
              forall v | Says(lines[i], "event", v) && v != "" :: AcceptAll(st, lines).name == v
    ensures (forall j | i < j < |lines| :: Anonymous(lines[j])) ==>
              forall v | Says(lines[i], "id", v) :: AcceptAll(st, lines).id == Some(v)
    decreases |lines|
  {
    hide Says, Accept, Unnamed, Anonymous;
    if i > 0 {
      LastNameAndIdCount(Accept(st, lines[0]), lines[1..], i - 1);
      assert forall j | 0 < j < |lines| :: lines[1..][j - 1] == lines[j];
    } else {
      LineLeavesNameAndId(st, lines[0]);
      NothingSaidLater(Accept(st, lines[0]), lines[1..]);
    }
  }

  lemma {:induction false} NothingSaidLater(st: Pending, lines: seq<string>)
    ensures (forall j | 0 <= j < |lines| :: Unnamed(lines[j])) ==> AcceptAll(st, lines).name == st.name
    ensures (forall j | 0 <= j < |lines| :: Anonymous(lines[j])) ==> AcceptAll(st, lines).id == st.id
    decreases |lines|
  {
    hide Accept, Unnamed, Anonymous;
    if lines != [] {
      LineLeavesNameAndId(st, lines[0]);
      NothingSaidLater(Accept(st, lines[0]), lines[1..]);
    }
  }

  // ----- parsing undoes printing ---------------------------------------------------------------------------

  /** An empty name reads back as the default. */
  function ReadBack(e: Event): Event {
    if e.name == "" then e.(name := "message") else e
  }

  /** The lines of one event: its name, which may be left out when it is the default, its id if it has
    * one, and its data line by line, each line in a layout of its own. */
  datatype Layout = Layout(name: seq<string>, id: seq<string>, data: seq<string>)

  predicate LaysOut(l: Layout, e: Event) {
    && (if l.name == [] then e.name == "message" else |l.name| == 1 && Says(l.name[0], "event", e.name))
    && (if l.id == [] then e.id.None? else |l.id| == 1 && e.id.Some? && Says(l.id[0], "id", e.id.value))
    && |l.data| == |Lines(e.data)| && forall i | 0 <= i < |l.data| :: Says(l.data[i], "data", Lines(e.data)[i])
  }

  function AllLines(layouts: seq<Layout>): seq<string> {
    if layouts == [] then []
    else layouts[0].name + layouts[0].id + layouts[0].data + [""] + AllLines(layouts[1..])
  }

  lemma {:induction false} LaidDataReads(st: Pending, lines: seq<string>, data: seq<string>, rest: seq<string>)
    requires |lines| == |data| && forall i | 0 <= i < |lines| :: Says(lines[i], "data", data[i])
    ensures Run(st, lines + rest) == Run(st.(dataLines := st.dataLines + data), rest)
    decreases |lines|
  {
    if lines == [] {
      assert lines + rest == rest && st.dataLines + data == st.dataLines;
    } else {
      hide Run;
      SaysExactly(lines[0], "data", data[0]);
      assert lines + rest == [lines[0]] + (lines[1..] + rest);
      RunFirst(st, lines[0], lines[1..] + rest);
      assert lines[0] != "" && !IsComment(lines[0]);
      assert st.dataLines + [data[0]] + data[1..] == st.dataLines + data;
      LaidDataReads(Accept(st, lines[0]), lines[1..], data[1..], rest);
    }
  }

  lemma LaidNameReads(name: seq<string>, e: Event, rest: seq<string>)
    requires if name == [] then e.name == "message" else |name| == 1 && Says(name[0], "event", e.name)
    ensures Run(FRESH, name + rest) == Run(FRESH.(name := ReadBack(e).name), rest)
  {
    if name == [] {
      assert name + rest == rest;
    } else {
      SaysExactly(name[0], "event", e.name);
      assert name == [name[0]];
      RunFirst(FRESH, name[0], rest);
    }
  }

  lemma LaidIdReads(st: Pending, id: seq<string>, e: Event, rest: seq<string>)
    requires st.id.None?
    requires if id == [] then e.id.None? else |id| == 1 && e.id.Some? && Says(id[0], "id", e.id.value)
    ensures Run(st, id + rest) == Run(st.(id := e.id), rest)
  {
    if id == [] {
      assert id + rest == rest;
    } else {
      SaysExactly(id[0], "id", e.id.value);
      assert id == [id[0]];
      RunFirst(st, id[0], rest);
    }
  }

  lemma {:induction false} LinesJoin(s: string)
    ensures Join(Lines(s)) == s
    decreases |s|
  {
    if s != "" {
      var rest := Lines(s[1..]);
      LinesJoin(s[1..]);
      assert Lines(s)[1..] == if s[0] == '\n' then rest else rest[1..];
    }
  }

  lemma LaidEventReads(l: Layout, e: Event, rest: seq<string>)
    requires LaysOut(l, e)
    ensures Run(FRESH, l.name + l.id + l.data + [""] + rest) == [ReadBack(e)] + Run(FRESH, rest)
  {
    hide Run, Lines, Join, Says;
    var data, tail := Lines(e.data), l.data + ([""] + rest);
    assert l.name + l.id + l.data + [""] + rest == l.name + (l.id + tail);
    LaidNameReads(l.name, e, l.id + tail);
    var named := FRESH.(name := ReadBack(e).name);
    LaidIdReads(named, l.id, e, tail);
    LaidDataReads(named.(id := e.id), l.data, data, [""] + rest);
    RunFirst(named.(id := e.id, dataLines := [] + data), "", rest);
    LinesJoin(e.data);
    assert [] + data == data;
  }

  lemma {:induction false} LaidOutReads(layouts: seq<Layout>, events: seq<Event>)
    requires |layouts| == |events| && forall i | 0 <= i < |events| :: LaysOut(layouts[i], events[i])
    ensures Run(FRESH, AllLines(layouts)) == seq(|events|, i requires 0 <= i < |events| => ReadBack(events[i]))
  {
    if events != [] {
      hide Run, LaysOut;
      LaidEventReads(layouts[0], events[0], AllLines(layouts[1..]));
      LaidOutReads(layouts[1..], events[1..]);
    }
  }

  /** Whatever layout each line of each event is written in, with or without the space after the colon
    * and with or without a default name, and under any of the three line endings, parsing the text gives
    * back the same events. */
  lemma ParsingUndoesEveryLayout(layouts: seq<Layout>, events: seq<Event>, eol: string)
    requires |layouts| == |events| && forall i | 0 <= i < |events| :: LaysOut(layouts[i], events[i])
    requires forall l | l in AllLines(layouts) :: Plain(l)
    requires IsEol(eol)
    ensures Run(FRESH, Lines(Normalize(Joined(AllLines(layouts), eol)))) ==
            seq(|events|, i requires 0 <= i < |events| => ReadBack(events[i]))
  {
    if events == [] {
      assert Run(FRESH, [""]) == Dispatch(FRESH) + Run(FRESH, [""][1..]);
      return;
    }
    LineEndingsAgree(AllLines(layouts), eol);
    LaidOutReads(layouts, events);
  }

  /** The standard layout of one event: each value after a colon and a space. */
  function Standard(e: Event): Layout {
    var data := Lines(e.data);
    Layout(["event: " + e.name], if e.id.Some? then ["id: " + e.id.value] else [],
           seq(|data|, i requires 0 <= i < |data| => "data: " + data[i]))
  }

  function Print(events: seq<Event>): seq<Layout> {
    seq(|events|, i requires 0 <= i < |events| => Standard(events[i]))
  }

  /** Single-line names and ids; data of any number of lines. */
  predicate Printable(e: Event) {
    Plain(e.name) && (e.id.Some? ==> Plain(e.id.value)) && '\r' !in e.data
  }

  lemma StandardLaysOut(e: Event)
    ensures LaysOut(Standard(e), e)
  {
    assert "event" + ": " + e.name == "event: " + e.name;
    if e.id.Some? { assert "id" + ": " + e.id.value == "id: " + e.id.value; }
    forall i | 0 <= i < |Lines(e.data)| ensures Says(Standard(e).data[i], "data", Lines(e.data)[i]) {
      assert "data" + ": " + Lines(e.data)[i] == "data: " + Lines(e.data)[i];
    }
  }

  lemma {:induction false} LinesArePlain(s: string)
    requires '\r' !in s
    ensures forall l | l in Lines(s) :: Plain(l)
    decreases |s|
  {
    if s != "" {
      LinesArePlain(s[1..]);
      assert Plain(Lines(s[1..])[0]);
    }
  }

  lemma StandardIsPlain(e: Event, l: string)
    requires Printable(e) && (l in Standard(e).name || l in Standard(e).id || l in Standard(e).data)
    ensures Plain(l)
  {
    hide Lines;
    LinesArePlain(e.data);
    if l in Standard(e).data {
      var i :| 0 <= i < |Lines(e.data)| && l == "data: " + Lines(e.data)[i];
      assert Plain(Lines(e.data)[i]);
    }
  }

  lemma {:induction false} PrintedIsPlain(events: seq<Event>)
    requires forall e | e in events :: Printable(e)
    ensures forall l | l in AllLines(Print(events)) :: Plain(l)
  {
    if events != [] {
      hide Standard, Printable;
      PrintedIsPlain(events[1..]);
      assert Print(events)[1..] == Print(events[1..]);
      forall l | l in AllLines(Print(events)) ensures Plain(l) {
        var x := Standard(events[0]);
        if l in x.name || l in x.id || l in x.data { StandardIsPlain(events[0], l); }
      }
    }
  }

  /** In particular printing any events in the standard layout, under any line ending, and parsing the
    * text gives back the same events, except that an empty name reads as "message". */
  lemma ParsingUndoesPrinting(events: seq<Event>, eol: string)
    requires forall e | e in events :: Printable(e)
    requires IsEol(eol)
    ensures Run(FRESH, Lines(Normalize(Joined(AllLines(Print(events)), eol)))) ==
            seq(|events|, i requires 0 <= i < |events| => ReadBack(events[i]))
  {
    forall i | 0 <= i < |events| ensures LaysOut(Print(events)[i], events[i]) { StandardLaysOut(events[i]); }
    PrintedIsPlain(events);
    ParsingUndoesEveryLayout(Print(events), events, eol);
  }
}
