/** What one streamed payload asks of the reassembled message, and what a whole stream adds up to. */
module StreamOps {
  import opened Prelude
  import opened JsonPaths

  datatype CallValue = CallValue(id: Option<string>, kind: string, name: Option<string>, arguments: Option<Json>)

  const NEW_CALL := CallValue(None, "function", None, None)

  datatype Edit =
    | Touch
    | SetId(id: string)
    | SetKind(kind: string)
    | SetName(name: string)
    | AppendName(fragment: string)
    | SetArguments(arguments: Json)
    | AppendArguments(fragment: string)

  datatype Op = Text(text: string) | On(key: string, edit: Edit)

  function TextOf(v: Option<Json>): string {
    if v.Some? && v.value.Str? then v.value.s else ""
  }

  function Edited(c: CallValue, e: Edit): CallValue {
    match e
    case Touch => c
    case SetId(id) => c.(id := Some(id))
    case SetKind(kind) => c.(kind := kind)
    case SetName(name) => c.(name := Some(name))
    case AppendName(f) => c.(name := Some(c.name.GetOr("") + f))
    case SetArguments(v) => c.(arguments := Some(v))
    case AppendArguments(f) => c.(arguments := Some(Str(TextOf(c.arguments) + f)))
  }

  // ----- reading a payload ------------------------------------------------------------------------------

  function At(v: Json, key: string): Option<Json> {
    if v.Obj? && key in v.fields then Some(v.fields[key]) else None
  }

  function StringAt(v: Json, key: string): Option<string> {
    var x := At(v, key);
    if x.Some? && x.value.Str? then Some(x.value.s) else None
  }

  function RecordAt(v: Json, key: string): Option<Json> {
    var x := At(v, key);
    if x.Some? && x.value.Obj? then x else None
  }

  function ItemsAt(v: Json, key: string): seq<Json> {
    var x := At(v, key);
    if x.Some? && x.value.Arr? then x.value.items else []
  }

  function FirstRecord(items: seq<Json>): Option<Json> {
    if items == [] then None else if items[0].Obj? then Some(items[0]) else FirstRecord(items[1..])
  }

  /** `str` is JavaScript's String(). */
  function IndexText(v: Json, key: string, str: Json -> string): string {
    var x := At(v, key);
    str(if x.Some? && !x.value.Null? then x.value else Num(0.0))
  }

  /** The fields of a call that a payload may carry, whole or as a part to append. */
  datatype Field = Id | Kind | Name | NamePart | Arguments | ArgumentsPart

  function EditFor(field: Field, s: string): Edit {
    match field
    case Id => SetId(s)
    case Kind => SetKind(s)
    case Name => SetName(s)
    case NamePart => AppendName(s)
    case Arguments => SetArguments(Str(s))
    case ArgumentsPart => AppendArguments(s)
  }

  function TextIf(s: Option<string>): seq<Op> {
    if s.Some? then [Text(s.value)] else []
  }

  /** A present string is applied, an absent one changes nothing. */
  function EditIf(key: string, field: Field, s: Option<string>): seq<Op> {
    if s.Some? then [On(key, EditFor(field, s.value))] else []
  }

  function ChatKey(rawCall: Json, str: Json -> string): string {
    var index := At(rawCall, "index");
    "chat:" + str(if index.Some? && index.value.Num? then index.value else Num(0.0))
  }

  function ChatCallOps(rawCall: Json, str: Json -> string): seq<Op> {
    if !rawCall.Obj? then []
    else
      var key := ChatKey(rawCall, str);
      var fn := RecordAt(rawCall, "function").GetOr(Obj(map[]));
      [On(key, Touch)]
      + EditIf(key, Id, StringAt(rawCall, "id"))
      + EditIf(key, Kind, StringAt(rawCall, "type"))
      + EditIf(key, NamePart, StringAt(fn, "name"))
      + EditIf(key, ArgumentsPart, StringAt(fn, "arguments"))
  }

  function ChatCallsOps(rawCalls: seq<Json>, str: Json -> string): seq<Op> {
    if rawCalls == [] then [] else ChatCallOps(rawCalls[0], str) + ChatCallsOps(rawCalls[1..], str)
  }

  /** The delta of the first record among the choices. */
  function ChatDelta(p: Json): Option<Json> {
    var choice := FirstRecord(ItemsAt(p, "choices"));
    if choice.Some? then RecordAt(choice.value, "delta") else None
  }

  function ChoiceOps(p: Json, str: Json -> string): seq<Op> {
    var delta := ChatDelta(p);
    if delta.None? then []
    else TextIf(StringAt(delta.value, "content")) + ChatCallsOps(ItemsAt(delta.value, "tool_calls"), str)
  }

  function OutputTextOps(p: Json): seq<Op> {
    if StringAt(p, "type") == Some("response.output_text.delta") then TextIf(StringAt(p, "delta")) else []
  }

  function ItemKey(p: Json, item: Json, str: Json -> string): string {
    "response:" + StringAt(item, "id").GetOr(StringAt(item, "call_id").GetOr(IndexText(p, "output_index", str)))
  }

  function OutputItemOps(p: Json, str: Json -> string): seq<Op> {
    var kind, item := StringAt(p, "type"), RecordAt(p, "item");
    if (kind == Some("response.output_item.added") || kind == Some("response.output_item.done"))
      && item.Some? && StringAt(item.value, "type") == Some("function_call") then
      var key := ItemKey(p, item.value, str);
      var callId := StringAt(item.value, "call_id");
      [On(key, Touch)]
      + EditIf(key, Id, if callId.Some? then callId else StringAt(item.value, "id"))
      + EditIf(key, Name, StringAt(item.value, "name"))
      + EditIf(key, Arguments, StringAt(item.value, "arguments"))
    else []
  }

  function ResponseKey(p: Json, str: Json -> string): string {
    "response:" + StringAt(p, "item_id").GetOr(IndexText(p, "output_index", str))
  }

  function ArgumentsDeltaOps(p: Json, str: Json -> string): seq<Op> {
    if StringAt(p, "type") == Some("response.function_call_arguments.delta")
    then EditIf(ResponseKey(p, str), ArgumentsPart, StringAt(p, "delta"))
    else []
  }

  function BlockKey(p: Json, str: Json -> string): string {
    "anthropic:" + IndexText(p, "index", str)
  }

  function BlockStartOps(p: Json, str: Json -> string): seq<Op> {
    var block := RecordAt(p, "content_block");
    if StringAt(p, "type") == Some("content_block_start") && block.Some? && StringAt(block.value, "type") == Some("tool_use") then
      var key, input := BlockKey(p, str), At(block.value, "input");
      [On(key, Touch)]
      + EditIf(key, Id, StringAt(block.value, "id"))
      + EditIf(key, Name, StringAt(block.value, "name"))
      + (if input.Some? && !input.value.Null? then [On(key, SetArguments(input.value))] else [])
    else []
  }

  function BlockDeltaOps(p: Json, str: Json -> string): seq<Op> {
    var delta := RecordAt(p, "delta");
    if StringAt(p, "type") == Some("content_block_delta") && delta.Some? then
      TextIf(StringAt(delta.value, "text"))
      + (if StringAt(delta.value, "type") == Some("input_json_delta")
         then EditIf(BlockKey(p, str), ArgumentsPart, StringAt(delta.value, "partial_json"))
         else [])
    else []
  }

  function Ops(p: Json, str: Json -> string): seq<Op> {
    ChoiceOps(p, str) + OutputTextOps(p) + OutputItemOps(p, str) + ArgumentsDeltaOps(p, str)
    + BlockStartOps(p, str) + BlockDeltaOps(p, str)
  }

  function AllOps(payloads: seq<Json>, str: Json -> string): seq<Op> {
    if payloads == [] then [] else Ops(payloads[0], str) + AllOps(payloads[1..], str)
  }

  // ----- accumulating -------------------------------------------------------------------------------------

  /** The text so far, the call keys in first-seen order, and the call of each key. */
  datatype Message = Message(text: string, order: seq<string>, calls: map<string, CallValue>)

  const EMPTY := Message("", [], map[])

  function CallFor(m: Message, key: string): Message {
    if key in m.calls then m else m.(order := m.order + [key], calls := m.calls[key := NEW_CALL])
  }

  function Step(m: Message, op: Op): Message {
    match op
    case Text(s) => m.(text := m.text + s)
    case On(key, edit) => var n := CallFor(m, key); n.(calls := n.calls[key := Edited(n.calls[key], edit)])
  }

  function Fold(m: Message, ops: seq<Op>): Message
    decreases |ops|
  {
    if ops == [] then m else Fold(Step(m, ops[0]), ops[1..])
  }

  lemma {:induction false} FoldAppend(m: Message, a: seq<Op>, b: seq<Op>)
    ensures Fold(m, a + b) == Fold(Fold(m, a), b)
    decreases |a|
  {
    if a == [] {
      assert [] + b == b;
    } else {
      assert (a + b)[1..] == a[1..] + b;
      FoldAppend(Step(m, a[0]), a[1..], b);
    }
  }

  lemma FoldLast(m: Message, ops: seq<Op>)
    requires ops != []
    ensures Fold(m, ops) == Step(Fold(m, ops[..|ops| - 1]), ops[|ops| - 1])
  {
    assert ops == ops[..|ops| - 1] + [ops[|ops| - 1]];
    FoldAppend(m, ops[..|ops| - 1], [ops[|ops| - 1]]);
    assert [ops[|ops| - 1]][1..] == [];
  }

  // ----- the interleaved stream, key by key -----------------------------------------------------------------

  function TextIn(ops: seq<Op>): string {
    if ops == [] then ""
    else TextIn(ops[..|ops| - 1]) + (if ops[|ops| - 1].Text? then ops[|ops| - 1].text else "")
  }

  function EditsOf(ops: seq<Op>, key: string): seq<Edit> {
    if ops == [] then []
    else
      var last := ops[|ops| - 1];
      EditsOf(ops[..|ops| - 1], key) + (if last.On? && last.key == key then [last.edit] else [])
  }

  function EditAll(c: CallValue, edits: seq<Edit>): CallValue {
    if edits == [] then c else Edited(EditAll(c, edits[..|edits| - 1]), edits[|edits| - 1])
  }

  predicate FirstAt(ops: seq<Op>, key: string, i: nat)
    requires i < |ops|
  {
    ops[i].On? && ops[i].key == key && forall j | 0 <= j < i :: !(ops[j].On? && ops[j].key == key)
  }

  /** `firsts` are the positions of the keys' first operations: increasing, and all of them. */
  ghost predicate FirstSeen(ops: seq<Op>, order: seq<string>, firsts: seq<nat>) {
    && |firsts| == |order|
    && (forall n | 0 <= n < |order| :: firsts[n] < |ops| && FirstAt(ops, order[n], firsts[n]))
    && (forall m, n | 0 <= m < n < |order| :: firsts[m] < firsts[n])
    && (forall i | 0 <= i < |ops| && ops[i].On? :: ops[i].key in order)
  }

  lemma {:induction false} TextIsConcatenation(ops: seq<Op>)
    ensures Fold(EMPTY, ops).text == TextIn(ops)
    decreases |ops|
  {
    if ops != [] {
      TextIsConcatenation(ops[..|ops| - 1]);
      FoldLast(EMPTY, ops);
    }
  }

  lemma {:induction false} CallsArePerKey(ops: seq<Op>, k: string)
    ensures var m := Fold(EMPTY, ops);
      && (k in m.calls <==> EditsOf(ops, k) != [])
      && (k in m.calls ==> m.calls[k] == EditAll(NEW_CALL, EditsOf(ops, k)))
    decreases |ops|
  {
    if ops != [] {
      var front, last := ops[..|ops| - 1], ops[|ops| - 1];
      CallsArePerKey(front, k);
      FoldLast(EMPTY, ops);
      if last.On? && last.key == k {
        EditsSnoc(NEW_CALL, EditsOf(front, k), last.edit);
      } else {
        assert EditsOf(ops, k) == EditsOf(front, k);
      }
    }
  }

  lemma {:induction false} OrderIsFirstSeen(ops: seq<Op>) returns (firsts: seq<nat>)
    ensures FirstSeen(ops, Fold(EMPTY, ops).order, firsts)
    ensures forall k :: k in Fold(EMPTY, ops).calls <==> k in Fold(EMPTY, ops).order
    decreases |ops|
  {
    firsts := [];
    if ops != [] {
      var front, last := ops[..|ops| - 1], ops[|ops| - 1];
      firsts := OrderIsFirstSeen(front);
      FoldLast(EMPTY, ops);
      var order := Fold(EMPTY, front).order;
      if last.On? && last.key !in order {
        FirstSeenNewKey(ops, order, firsts);
        firsts := firsts + [|ops| - 1];
      } else {
        FirstSeenExtends(ops, order, firsts);
      }
    }
  }

  lemma FirstSeenExtends(ops: seq<Op>, order: seq<string>, firsts: seq<nat>)
    requires ops != [] && FirstSeen(ops[..|ops| - 1], order, firsts)
    requires var last := ops[|ops| - 1]; last.On? ==> last.key in order
    ensures FirstSeen(ops, order, firsts)
  {
    var front := ops[..|ops| - 1];
    forall n | 0 <= n < |order| ensures firsts[n] < |ops| && FirstAt(ops, order[n], firsts[n]) {
      assert FirstAt(front, order[n], firsts[n]);
    }
    forall i | 0 <= i < |ops| && ops[i].On? ensures ops[i].key in order {
      if i < |front| { assert front[i] == ops[i]; }
    }
  }

  lemma FirstSeenNewKey(ops: seq<Op>, order: seq<string>, firsts: seq<nat>)
    requires ops != [] && FirstSeen(ops[..|ops| - 1], order, firsts)
    requires var last := ops[|ops| - 1]; last.On? && last.key !in order
    ensures FirstSeen(ops, order + [ops[|ops| - 1].key], firsts + [|ops| - 1])
  {
    var front, last := ops[..|ops| - 1], ops[|ops| - 1];
    forall n | 0 <= n < |order| ensures firsts[n] < |ops| && FirstAt(ops, order[n], firsts[n]) {
      assert FirstAt(front, order[n], firsts[n]);
    }
    forall j | 0 <= j < |front| && ops[j].On? ensures ops[j].key != last.key {
      assert front[j] == ops[j];
    }
    assert FirstAt(ops, last.key, |ops| - 1);
    forall i | 0 <= i < |ops| && ops[i].On? ensures ops[i].key in order + [last.key] {
      if i < |front| { assert front[i] == ops[i]; }
    }
  }

  lemma EditsSnoc(c: CallValue, edits: seq<Edit>, e: Edit)
    ensures EditAll(c, edits + [e]) == Edited(EditAll(c, edits), e)
  {
    assert (edits + [e])[..|edits|] == edits;
  }

  /** The interleaved, shared accumulation is a fold per key: the text is the concatenation of the
    * text deltas, each call appears once, in the order its key was first seen, and its value depends
    * on that key's own operations alone. */
  lemma ReassemblyIsPerKey(ops: seq<Op>)
    ensures Fold(EMPTY, ops).text == TextIn(ops)
    ensures exists firsts :: FirstSeen(ops, Fold(EMPTY, ops).order, firsts)
    ensures forall k :: k in Fold(EMPTY, ops).calls <==> k in Fold(EMPTY, ops).order
    ensures forall k | k in Fold(EMPTY, ops).calls :: Fold(EMPTY, ops).calls[k] == EditAll(NEW_CALL, EditsOf(ops, k))
  {
    TextIsConcatenation(ops);
    var firsts := OrderIsFirstSeen(ops);
    forall k | k in Fold(EMPTY, ops).calls ensures Fold(EMPTY, ops).calls[k] == EditAll(NEW_CALL, EditsOf(ops, k)) {
      CallsArePerKey(ops, k);
    }
  }

  // ----- a call's arguments: the last overwrite, then the fragments after it --------------------------------

  function LastOverwrite(edits: seq<Edit>): (r: Option<nat>)
    ensures r.Some? ==> r.value < |edits| && edits[r.value].SetArguments?
    ensures forall i | 0 <= i < |edits| && edits[i].SetArguments? :: r.Some? && i <= r.value
  {
    if edits == [] then None
    else if edits[|edits| - 1].SetArguments? then Some(|edits| - 1)
    else LastOverwrite(edits[..|edits| - 1])
  }

  function Fragments(edits: seq<Edit>): string {
    if edits == [] then ""
    else Fragments(edits[..|edits| - 1]) + (if edits[|edits| - 1].AppendArguments? then edits[|edits| - 1].fragment else "")
  }

  /** The arguments that `edits` leave: those of the last overwrite, or its text (when it is text)
    * followed by every later fragment. */
  function ArgumentsOf(edits: seq<Edit>): Option<Json> {
    var last := LastOverwrite(edits);
    var base := if last.Some? then Some(edits[last.value].arguments) else None;
    var later := if last.Some? then edits[last.value + 1..] else edits;
    After(base, later)
  }

  function After(base: Option<Json>, later: seq<Edit>): Option<Json> {
    if exists i | 0 <= i < |later| :: later[i].AppendArguments? then Some(Str(TextOf(base) + Fragments(later))) else base
  }

  lemma {:induction false} NoFragments(edits: seq<Edit>)
    requires forall i | 0 <= i < |edits| :: !edits[i].AppendArguments?
    ensures Fragments(edits) == ""
  {
    if edits != [] { NoFragments(edits[..|edits| - 1]); }
  }

  lemma SuffixSnoc<T>(s: seq<T>, x: T, k: nat)
    requires k <= |s|
    ensures (s + [x])[k..] == s[k..] + [x]
  {
  }

  lemma NothingAfter(base: Option<Json>)
    ensures After(base, []) == base
  {
  }

  lemma AppendAfter(base: Option<Json>, was: seq<Edit>, e: Edit)
    requires !e.SetArguments?
    ensures After(base, was + [e]) ==
      if e.AppendArguments? then Some(Str(TextOf(After(base, was)) + e.fragment)) else After(base, was)
  {
    var later := was + [e];
    assert later[..|later| - 1] == was && later[|was|] == e;
    if exists i | 0 <= i < |was| :: was[i].AppendArguments? {
      var i :| 0 <= i < |was| && was[i].AppendArguments?;
      assert later[i].AppendArguments?;
      if e.AppendArguments? {
        assert TextOf(base) + (Fragments(was) + e.fragment) == (TextOf(base) + Fragments(was)) + e.fragment;
      } else {
        assert Fragments(was) + "" == Fragments(was);
      }
    } else {
      NoFragments(was);
      assert "" + (if e.AppendArguments? then e.fragment else "") == (if e.AppendArguments? then e.fragment else "");
    }
  }

  lemma OverwriteSnoc(front: seq<Edit>, e: Edit)
    ensures LastOverwrite(front + [e]) == if e.SetArguments? then Some(|front|) else LastOverwrite(front)
  {
    var edits := front + [e];
    assert edits[|edits| - 1] == e && edits[..|edits| - 1] == front;
  }

  /** What an edit does to a call's arguments depends on its arguments alone. */
  lemma EditedArguments(c: CallValue, d: CallValue, e: Edit)
    requires c.arguments == d.arguments
    ensures Edited(c, e).arguments == Edited(d, e).arguments
  {
  }

  lemma ArgumentsSnoc(front: seq<Edit>, e: Edit)
    ensures ArgumentsOf(front + [e]) == Edited(NEW_CALL.(arguments := ArgumentsOf(front)), e).arguments
  {
    hide LastOverwrite, After, Fragments;
    var edits, last := front + [e], LastOverwrite(front);
    OverwriteSnoc(front, e);
    if e.SetArguments? {
      assert edits[|front| + 1..] == [];
      NothingAfter(Some(e.arguments));
    } else if last.Some? {
      SuffixSnoc(front, e, last.value + 1);
      AppendAfter(Some(front[last.value].arguments), front[last.value + 1..], e);
    } else {
      AppendAfter(None, front, e);
    }
  }

  lemma {:induction false} ArgumentsAreLastOverwriteAndFragments(edits: seq<Edit>)
    ensures EditAll(NEW_CALL, edits).arguments == ArgumentsOf(edits)
    decreases |edits|
  {
    if edits != [] {
      hide ArgumentsOf, Edited;
      var front, e := edits[..|edits| - 1], edits[|edits| - 1];
      assert edits == front + [e];
      ArgumentsAreLastOverwriteAndFragments(front);
      ArgumentsSnoc(front, e);
      EditedArguments(EditAll(NEW_CALL, front), NEW_CALL.(arguments := ArgumentsOf(front)), e);
    } else {
      NothingAfter(None);
    }
  }

  // ----- splitting a delta changes nothing -------------------------------------------------------------------

  /** `whole` is the one delta that `first` and `second` together spell. */
  predicate Splits(whole: Op, first: Op, second: Op) {
    match whole
    case Text(s) => first.Text? && second.Text? && s == first.text + second.text
    case On(k, AppendArguments(s)) =>
      && first.On? && second.On? && first.key == k && second.key == k
      && first.edit.AppendArguments? && second.edit.AppendArguments? && s == first.edit.fragment + second.edit.fragment
    case On(k, AppendName(s)) =>
      && first.On? && second.On? && first.key == k && second.key == k
      && first.edit.AppendName? && second.edit.AppendName? && s == first.edit.fragment + second.edit.fragment
    case _ => false
  }

  lemma SplitStep(m: Message, whole: Op, first: Op, second: Op)
    requires Splits(whole, first, second)
    ensures Step(m, whole) == Step(Step(m, first), second)
  {
    match whole {
      case Text(s) => assert m.text + s == (m.text + first.text) + second.text;
      case On(k, e) =>
        var c := CallFor(m, k).calls[k];
        var n := Step(m, first);
        assert CallFor(n, k) == n;
        if e.AppendArguments? {
          assert TextOf(c.arguments) + e.fragment == (TextOf(c.arguments) + first.edit.fragment) + second.edit.fragment;
        } else {
          assert c.name.GetOr("") + e.fragment == (c.name.GetOr("") + first.edit.fragment) + second.edit.fragment;
        }
        assert Edited(c, e) == Edited(Edited(c, first.edit), second.edit);
        assert Step(m, whole).calls == Step(n, second).calls;
    }
  }

  /** Cutting any text or argument delta in two, anywhere in the stream, leaves the message as it is. */
  lemma SplittingDeltasIsInvisible(before: seq<Op>, whole: Op, first: Op, second: Op, after: seq<Op>)
    requires Splits(whole, first, second)
    ensures Fold(EMPTY, before + [whole] + after) == Fold(EMPTY, before + [first, second] + after)
  {
    var m := Fold(EMPTY, before);
    FoldAppend(EMPTY, before + [whole], after);
    FoldAppend(EMPTY, before, [whole]);
    FoldAppend(EMPTY, before + [first, second], after);
    FoldAppend(EMPTY, before, [first, second]);
    assert [whole][1..] == [] && [first, second][1..] == [second] && [second][1..] == [];
    SplitStep(m, whole, first, second);
  }

  // ----- the providers' delta events ----------------------------------------------------------------------

  /** The operations come to `op` alone: an operation on a call may touch it first. */
  predicate Performs(ops: seq<Op>, op: Op) {
    ops == [op] || (op.On? && ops == [On(op.key, Touch), op])
  }

  /** All the payload asks for is `op`, whatever fields it holds beside those that are read. */
  predicate Asks(p: Json, op: Op, str: Json -> string) {
    Performs(Ops(p, str), op)
  }

  /** A payload asks nothing of the readers that look for another type, nor, without a chat delta, of
    * the first. */
  lemma OthersAreQuiet(p: Json, str: Json -> string)
    ensures ChatDelta(p).None? ==> ChoiceOps(p, str) == []
    ensures StringAt(p, "type") != Some("response.output_text.delta") ==> OutputTextOps(p) == []
    ensures StringAt(p, "type") != Some("response.output_item.added") && StringAt(p, "type") != Some("response.output_item.done")
            ==> OutputItemOps(p, str) == []
    ensures StringAt(p, "type") != Some("response.function_call_arguments.delta") ==> ArgumentsDeltaOps(p, str) == []
    ensures StringAt(p, "type") != Some("content_block_start") ==> BlockStartOps(p, str) == []
    ensures StringAt(p, "type") != Some("content_block_delta") ==> BlockDeltaOps(p, str) == []
  {
    hide ChatCallsOps, EditIf, TextIf, ItemKey, ResponseKey, BlockKey, ChatDelta;
  }

  const TYPES: set<string> := {
    "response.output_text.delta", "response.output_item.added", "response.output_item.done",
    "response.function_call_arguments.delta", "content_block_start", "content_block_delta"
  }

  /** Only the chat reader looks at the payload. */
  predicate Untyped(p: Json) {
    StringAt(p, "type").None? || StringAt(p, "type").value !in TYPES
  }

  lemma UntypedIsChat(p: Json, str: Json -> string)
    requires Untyped(p)
    ensures Ops(p, str) == ChoiceOps(p, str)
  {
    hide ChoiceOps, OutputTextOps, OutputItemOps, ArgumentsDeltaOps, BlockStartOps, BlockDeltaOps;
    OthersAreQuiet(p, str);
    var t := StringAt(p, "type");
    assert t != Some("response.output_text.delta") && t != Some("response.output_item.added")
        && t != Some("response.output_item.done") && t != Some("response.function_call_arguments.delta")
        && t != Some("content_block_start") && t != Some("content_block_delta");
    assert Ops(p, str) == ChoiceOps(p, str) + [] + [] + [] + [] + [];
  }

  /** A chat delta with content and no tool calls is one append to the text. */
  lemma ChatTextAppends(p: Json, s: string, str: Json -> string)
    requires Untyped(p) && ChatDelta(p).Some?
    requires StringAt(ChatDelta(p).value, "content") == Some(s) && ItemsAt(ChatDelta(p).value, "tool_calls") == []
    ensures Asks(p, Text(s), str)
  {
    hide Ops, ChatDelta;
    UntypedIsChat(p, str);
    assert ChoiceOps(p, str) == [Text(s)];
  }

  /** A chat delta without content and with one tool call performs that call's operations. */
  lemma OneChatCall(p: Json, rawCall: Json, str: Json -> string)
    requires Untyped(p) && ChatDelta(p).Some?
    requires StringAt(ChatDelta(p).value, "content").None? && ItemsAt(ChatDelta(p).value, "tool_calls") == [rawCall]
    ensures Ops(p, str) == ChatCallOps(rawCall, str)
  {
    hide Ops, ChatDelta, ChatCallOps;
    UntypedIsChat(p, str);
    assert [rawCall][1..] == [] && ChatCallsOps([], str) == [];
    assert ChatCallsOps([rawCall], str) == ChatCallOps(rawCall, str) + [];
    assert ChoiceOps(p, str) == [] + ChatCallsOps([rawCall], str);
  }

  function FunctionOf(rawCall: Json): Json {
    RecordAt(rawCall, "function").GetOr(Obj(map[]))
  }

  /** The call brings no id and no type of its own. */
  predicate Continues(rawCall: Json) {
    rawCall.Obj? && StringAt(rawCall, "id").None? && StringAt(rawCall, "type").None?
  }

  /** A continuing tool-call delta with a name or an argument fragment is one append to its call. */
  lemma ChatCallAppends(p: Json, rawCall: Json, edit: Edit, str: Json -> string)
    requires Untyped(p) && ChatDelta(p).Some?
    requires StringAt(ChatDelta(p).value, "content").None? && ItemsAt(ChatDelta(p).value, "tool_calls") == [rawCall]
    requires Continues(rawCall)
    requires var name, arguments := StringAt(FunctionOf(rawCall), "name"), StringAt(FunctionOf(rawCall), "arguments");
      (name.Some? && arguments.None? && edit == AppendName(name.value))
      || (name.None? && arguments.Some? && edit == AppendArguments(arguments.value))
    ensures Asks(p, On(ChatKey(rawCall, str), edit), str)
  {
    hide Ops, ChatDelta, ChatKey;
    OneChatCall(p, rawCall, str);
  }

  lemma ResponsesTextAppends(p: Json, s: string, str: Json -> string)
    requires StringAt(p, "type") == Some("response.output_text.delta") && StringAt(p, "delta") == Some(s) && ChatDelta(p).None?
    ensures Asks(p, Text(s), str)
  {
    hide ChoiceOps, OutputItemOps, ArgumentsDeltaOps, BlockStartOps, BlockDeltaOps;
    OthersAreQuiet(p, str);
  }

  lemma ResponsesArgumentsAppend(p: Json, s: string, str: Json -> string)
    requires StringAt(p, "type") == Some("response.function_call_arguments.delta") && StringAt(p, "delta") == Some(s)
    requires ChatDelta(p).None?
    ensures Asks(p, On(ResponseKey(p, str), AppendArguments(s)), str)
  {
    hide ChoiceOps, OutputTextOps, OutputItemOps, BlockStartOps, BlockDeltaOps, ResponseKey;
    OthersAreQuiet(p, str);
  }

  lemma AnthropicTextAppends(p: Json, delta: Json, s: string, str: Json -> string)
    requires StringAt(p, "type") == Some("content_block_delta") && RecordAt(p, "delta") == Some(delta) && ChatDelta(p).None?
    requires StringAt(delta, "text") == Some(s)
    requires StringAt(delta, "type") != Some("input_json_delta") || StringAt(delta, "partial_json").None?
    ensures Asks(p, Text(s), str)
  {
    hide ChoiceOps, OutputTextOps, OutputItemOps, ArgumentsDeltaOps, BlockStartOps, BlockKey;
    OthersAreQuiet(p, str);
    assert BlockDeltaOps(p, str) == [Text(s)];
  }

  lemma AnthropicArgumentsAppend(p: Json, delta: Json, s: string, str: Json -> string)
    requires StringAt(p, "type") == Some("content_block_delta") && RecordAt(p, "delta") == Some(delta) && ChatDelta(p).None?
    requires StringAt(delta, "text").None?
    requires StringAt(delta, "type") == Some("input_json_delta") && StringAt(delta, "partial_json") == Some(s)
    ensures Asks(p, On(BlockKey(p, str), AppendArguments(s)), str)
  {
    hide ChoiceOps, OutputTextOps, OutputItemOps, ArgumentsDeltaOps, BlockStartOps, BlockKey;
    OthersAreQuiet(p, str);
    assert BlockDeltaOps(p, str) == [On(BlockKey(p, str), AppendArguments(s))];
  }

  // ----- splitting a payload changes nothing --------------------------------------------------------------------

  /** Where a payload is cut: in the operation `w`, of which `a` and `b` are the parts. What the payload
    * asks before it stays with the first part, what it asks after it goes with the second. */
  datatype Cut = Cut(before: seq<Op>, w: Op, a: Op, b: Op, after: seq<Op>, whole: seq<Op>, first: seq<Op>, second: seq<Op>)

  predicate Cuts(c: Cut, whole: Json, first: Json, second: Json, str: Json -> string) {
    && Splits(c.w, c.a, c.b)
    && Performs(c.whole, c.w) && Performs(c.first, c.a) && Performs(c.second, c.b)
    && Ops(whole, str) == c.before + c.whole + c.after
    && Ops(first, str) == c.before + c.first
    && Ops(second, str) == c.second + c.after
  }

  /** Payloads that ask one operation each are cut when the operations are. */
  lemma AskedCuts(whole: Json, first: Json, second: Json, w: Op, a: Op, b: Op, str: Json -> string) returns (c: Cut)
    requires Asks(whole, w, str) && Asks(first, a, str) && Asks(second, b, str) && Splits(w, a, b)
    ensures Cuts(c, whole, first, second, str)
  {
    hide Ops, Splits;
    c := Cut([], w, a, b, [], Ops(whole, str), Ops(first, str), Ops(second, str));
    assert [] + Ops(whole, str) + [] == Ops(whole, str) && [] + Ops(first, str) == Ops(first, str);
    assert Ops(second, str) + [] == Ops(second, str);
  }

  /** The record with one field set; whatever else it holds stays. */
  function With(p: Json, key: string, v: Json): Json
    requires p.Obj?
  {
    Obj(p.fields[key := v])
  }

  /** Any output-text event, cut in its delta. */
  lemma ResponsesTextCuts(p: Json, a: string, b: string, str: Json -> string) returns (c: Cut)
    requires p.Obj? && StringAt(p, "type") == Some("response.output_text.delta") && ChatDelta(p).None?
    ensures Cuts(c, With(p, "delta", Str(a + b)), With(p, "delta", Str(a)), With(p, "delta", Str(b)), str)
  {
    hide Ops, Cuts;
    var whole, first, second := With(p, "delta", Str(a + b)), With(p, "delta", Str(a)), With(p, "delta", Str(b));
    ResponsesTextAppends(whole, a + b, str);
    ResponsesTextAppends(first, a, str);
    ResponsesTextAppends(second, b, str);
    c := AskedCuts(whole, first, second, Text(a + b), Text(a), Text(b), str);
  }

  /** Any function-call-arguments event, cut in its delta. */
  lemma ResponsesArgumentsCuts(p: Json, a: string, b: string, str: Json -> string) returns (c: Cut)
    requires p.Obj? && StringAt(p, "type") == Some("response.function_call_arguments.delta") && ChatDelta(p).None?
    ensures Cuts(c, With(p, "delta", Str(a + b)), With(p, "delta", Str(a)), With(p, "delta", Str(b)), str)
  {
    hide Ops, Cuts;
    var whole, first, second := With(p, "delta", Str(a + b)), With(p, "delta", Str(a)), With(p, "delta", Str(b));
    var key := ResponseKey(p, str);
    ResponsesArgumentsAppend(whole, a + b, str);
    ResponsesArgumentsAppend(first, a, str);
    ResponsesArgumentsAppend(second, b, str);
    c := AskedCuts(whole, first, second, On(key, AppendArguments(a + b)), On(key, AppendArguments(a)), On(key, AppendArguments(b)), str);
  }

  /** A block-delta event with the block delta's field set. */
  function WithBlock(p: Json, delta: Json, key: string, s: string): Json
    requires p.Obj? && delta.Obj?
  {
    With(p, "delta", With(delta, key, Str(s)))
  }

  lemma BlockReads(p: Json, delta: Json, key: string, s: string, other: string, str: Json -> string)
    requires p.Obj? && delta.Obj? && other != key
    ensures var q := WithBlock(p, delta, key, s);
      && StringAt(q, "type") == StringAt(p, "type") && RecordAt(q, "delta") == Some(With(delta, key, Str(s)))
      && ChatDelta(q) == ChatDelta(p) && BlockKey(q, str) == BlockKey(p, str)
    ensures StringAt(With(delta, key, Str(s)), key) == Some(s)
    ensures StringAt(With(delta, key, Str(s)), other) == StringAt(delta, other)
  {
  }

  /** Any text block delta, cut in its text. */
  lemma AnthropicTextCuts(p: Json, delta: Json, a: string, b: string, str: Json -> string) returns (c: Cut)
    requires p.Obj? && delta.Obj? && StringAt(p, "type") == Some("content_block_delta") && ChatDelta(p).None?
    requires StringAt(delta, "type") != Some("input_json_delta")
    ensures Cuts(c, WithBlock(p, delta, "text", a + b), WithBlock(p, delta, "text", a), WithBlock(p, delta, "text", b), str)
  {
    hide Ops, Cuts, With, WithBlock, ChatDelta, BlockKey, StringAt, RecordAt;
    BlockReads(p, delta, "text", a + b, "type", str);
    BlockReads(p, delta, "text", a, "type", str);
    BlockReads(p, delta, "text", b, "type", str);
    AnthropicTextAppends(WithBlock(p, delta, "text", a + b), With(delta, "text", Str(a + b)), a + b, str);
    AnthropicTextAppends(WithBlock(p, delta, "text", a), With(delta, "text", Str(a)), a, str);
    AnthropicTextAppends(WithBlock(p, delta, "text", b), With(delta, "text", Str(b)), b, str);
    c := AskedCuts(WithBlock(p, delta, "text", a + b), WithBlock(p, delta, "text", a), WithBlock(p, delta, "text", b),
                   Text(a + b), Text(a), Text(b), str);
  }

  lemma JsonBlockAsks(p: Json, delta: Json, s: string, str: Json -> string)
    requires p.Obj? && delta.Obj? && StringAt(p, "type") == Some("content_block_delta") && ChatDelta(p).None?
    requires StringAt(delta, "type") == Some("input_json_delta") && StringAt(delta, "text").None?
    ensures Asks(WithBlock(p, delta, "partial_json", s), On(BlockKey(p, str), AppendArguments(s)), str)
  {
    hide Ops, With, WithBlock, ChatDelta, BlockKey, StringAt, RecordAt;
    BlockReads(p, delta, "partial_json", s, "type", str);
    BlockReads(p, delta, "partial_json", s, "text", str);
    AnthropicArgumentsAppend(WithBlock(p, delta, "partial_json", s), With(delta, "partial_json", Str(s)), s, str);
  }

  /** Any input-json block delta, cut in its fragment. */
  lemma AnthropicArgumentsCuts(p: Json, delta: Json, a: string, b: string, str: Json -> string) returns (c: Cut)
    requires p.Obj? && delta.Obj? && StringAt(p, "type") == Some("content_block_delta") && ChatDelta(p).None?
    requires StringAt(delta, "type") == Some("input_json_delta") && StringAt(delta, "text").None?
    ensures Cuts(c, WithBlock(p, delta, "partial_json", a + b), WithBlock(p, delta, "partial_json", a),
                 WithBlock(p, delta, "partial_json", b), str)
  {
    hide Ops, Cuts, WithBlock, ChatDelta, BlockKey, StringAt;
    var key := BlockKey(p, str);
    var whole, first, second :=
      WithBlock(p, delta, "partial_json", a + b), WithBlock(p, delta, "partial_json", a), WithBlock(p, delta, "partial_json", b);
    JsonBlockAsks(p, delta, a + b, str);
    JsonBlockAsks(p, delta, a, str);
    JsonBlockAsks(p, delta, b, str);
    c := AskedCuts(whole, first, second, On(key, AppendArguments(a + b)), On(key, AppendArguments(a)), On(key, AppendArguments(b)), str);
  }

  /** A tool-call delta that also opens its call, with id, type and name, is cut in its arguments: the
    * first part opens the call. */
  lemma OpeningCuts(whole: Json, first: Json, second: Json, callW: Json, callA: Json, callB: Json, a: string, b: string, str: Json -> string)
    returns (c: Cut)
    requires Ops(whole, str) == ChatCallOps(callW, str) && Ops(first, str) == ChatCallOps(callA, str)
    requires Ops(second, str) == ChatCallOps(callB, str)
    requires callW.Obj? && callA.Obj? && Continues(callB)
    requires ChatKey(callW, str) == ChatKey(callA, str) == ChatKey(callB, str)
    requires StringAt(callW, "id") == StringAt(callA, "id") && StringAt(callW, "type") == StringAt(callA, "type")
    requires StringAt(FunctionOf(callW), "name") == StringAt(FunctionOf(callA), "name") && StringAt(FunctionOf(callB), "name").None?
    requires StringAt(FunctionOf(callW), "arguments") == Some(a + b)
    requires StringAt(FunctionOf(callA), "arguments") == Some(a) && StringAt(FunctionOf(callB), "arguments") == Some(b)
    ensures Cuts(c, whole, first, second, str)
  {
    hide Ops, ChatKey;
    var key := ChatKey(callW, str);
    var opening := [On(key, Touch)] + EditIf(key, Id, StringAt(callW, "id")) + EditIf(key, Kind, StringAt(callW, "type"))
                   + EditIf(key, NamePart, StringAt(FunctionOf(callW), "name"));
    var w, x, y := On(key, AppendArguments(a + b)), On(key, AppendArguments(a)), On(key, AppendArguments(b));
    c := Cut(opening, w, x, y, [], [w], [x], [On(key, Touch), y]);
    assert ChatCallOps(callW, str) == opening + [w] + [];
    assert ChatCallOps(callA, str) == opening + [x];
    assert ChatCallOps(callB, str) == [On(key, Touch), y] + [];
  }

  /** Touching a call before an operation on it changes nothing. */
  lemma PerformedStep(m: Message, ops: seq<Op>, op: Op)
    requires Performs(ops, op)
    ensures Fold(m, ops) == Step(m, op)
  {
    if ops == [op] {
      assert [op][1..] == [];
    } else {
      FoldTwo(m, On(op.key, Touch), op);
      var n := CallFor(m, op.key);
      assert Step(m, On(op.key, Touch)) == n by { assert n.calls[op.key := n.calls[op.key]] == n.calls; }
      assert CallFor(n, op.key) == n;
    }
  }

  lemma CutFolds(m: Message, c: Cut, whole: Json, first: Json, second: Json, str: Json -> string)
    requires Cuts(c, whole, first, second, str)
    ensures Fold(m, Ops(whole, str)) == Fold(Fold(m, Ops(first, str)), Ops(second, str))
  {
    hide Ops, Fold, Step, Performs, Splits;
    var n := Fold(m, c.before);
    FoldAppend(m, c.before + c.whole, c.after);
    FoldAppend(m, c.before, c.whole);
    FoldAppend(m, c.before, c.first);
    FoldAppend(Step(n, c.a), c.second, c.after);
    PerformedStep(n, c.whole, c.w);
    PerformedStep(n, c.first, c.a);
    PerformedStep(Step(n, c.a), c.second, c.b);
    SplitStep(n, c.w, c.a, c.b);
  }

  lemma FoldTwo(m: Message, x: Op, y: Op)
    ensures Fold(m, [x, y]) == Step(Step(m, x), y)
  {
    var n := Step(m, x);
    assert [x, y][1..] == [y] && [y][1..] == [];
    assert Fold(n, [y]) == Fold(Step(n, y), []) == Step(n, y);
  }

  lemma {:induction false} AllOpsConcat(a: seq<Json>, b: seq<Json>, str: Json -> string)
    ensures AllOps(a + b, str) == AllOps(a, str) + AllOps(b, str)
  {
    hide Ops;
    if a == [] {
      assert a + b == b && [] + AllOps(b, str) == AllOps(b, str);
    } else {
      assert (a + b)[1..] == a[1..] + b;
      AllOpsConcat(a[1..], b, str);
      var x, y, z := Ops(a[0], str), AllOps(a[1..], str), AllOps(b, str);
      assert x + (y + z) == (x + y) + z;
    }
  }

  /** Cutting any delta payload in two, anywhere in the stream, leaves the reassembled message as it
    * is. */
  lemma SplittingPayloadsIsInvisible(before: seq<Json>, whole: Json, first: Json, second: Json, after: seq<Json>, c: Cut, str: Json -> string)
    requires Cuts(c, whole, first, second, str)
    ensures Fold(EMPTY, AllOps(before + [whole] + after, str)) == Fold(EMPTY, AllOps(before + [first, second] + after, str))
  {
    hide Ops, AllOps, Fold, Cuts;
    var m := Fold(EMPTY, AllOps(before, str));
    OnePayload(whole, str);
    OnePayload(first, str);
    OnePayload(second, str);
    AllOpsConcat([first], [second], str);
    assert [first] + [second] == [first, second];
    FoldThree(before, [whole], after, str);
    FoldThree(before, [first, second], after, str);
    FoldAppend(m, Ops(first, str), Ops(second, str));
    CutFolds(m, c, whole, first, second, str);
  }

  lemma OnePayload(p: Json, str: Json -> string)
    ensures AllOps([p], str) == Ops(p, str)
  {
    hide Ops;
    assert [p][1..] == [] && Ops(p, str) + [] == Ops(p, str);
  }

  lemma FoldThree(x: seq<Json>, y: seq<Json>, z: seq<Json>, str: Json -> string)
    ensures Fold(EMPTY, AllOps(x + y + z, str)) == Fold(Fold(Fold(EMPTY, AllOps(x, str)), AllOps(y, str)), AllOps(z, str))
  {
    hide Fold, AllOps;
    AllOpsConcat(x + y, z, str);
    AllOpsConcat(x, y, str);
    FoldAppend(EMPTY, AllOps(x, str) + AllOps(y, str), AllOps(z, str));
    FoldAppend(EMPTY, AllOps(x, str), AllOps(y, str));
  }
}
