/** Reassembling a recorded event stream: one loop, and call objects shared by a map and a list. */
module StreamResponse {
  import opened Prelude
  import opened JsonPaths
  import opened StreamOps

  class ToolCall {
    ghost const key: string
    var id: Option<string>
    var kind: string
    var name: Option<string>
    var arguments: Option<Json>

    constructor (ghost key: string)
      ensures Value() == NEW_CALL && this.key == key
    {
      this.key := key;
      id, kind, name, arguments := None, "function", None, None;
    }

    function Value(): CallValue
      reads this
    {
      CallValue(id, kind, name, arguments)
    }

    /** An assignment to one of the fields. */
    method Apply(edit: Edit)
      modifies this
      ensures Value() == Edited(old(Value()), edit)
    {
      match edit {
        case Touch =>
        case SetId(s) => id := Some(s);
        case SetKind(s) => kind := s;
        case SetName(s) => name := Some(s);
        case AppendName(fragment) => name := Some(name.GetOr("") + fragment);
        case SetArguments(v) => arguments := Some(v);
        case AppendArguments(fragment) =>
          var current := arguments;
          arguments := Some(Str((if current.Some? && current.value.Str? then current.value.s else "") + fragment));
      }
    }
  }

  /** A message part handed to the caller. */
  datatype Assistant = Assistant(content: Option<string>, toolCalls: seq<CallValue>)

  /** The locals of the reassembly loop. `order` spells out which key each listed call belongs to. */
  class Reassembly {
    const str: Json -> string
    var text: string
    var toolCalls: seq<ToolCall>
    var callsByKey: map<string, ToolCall>
    ghost var order: seq<string>

    constructor (str: Json -> string)
      ensures this.str == str && Valid() && Abs() == EMPTY && callsByKey == map[]
    {
      this.str := str;
      text, toolCalls, callsByKey, order := "", [], map[], [];
    }

    /** The list and the map hold the same objects, and no object stands under two keys. */
    ghost predicate Valid()
      reads this
    {
      && (forall k | k in callsByKey :: callsByKey[k].key == k)
      && |order| == |toolCalls|
      && (forall i | 0 <= i < |order| :: order[i] in callsByKey && callsByKey[order[i]] == toolCalls[i])
    }

    ghost function Abs(): Message
      reads this, callsByKey.Values
    {
      Message(text, order, map k | k in callsByKey :: callsByKey[k].Value())
    }

    method CallFor(key: string) returns (call: ToolCall)
      requires Valid()
      modifies this`toolCalls, this`callsByKey, this`order
      ensures Valid() && key in callsByKey && callsByKey[key] == call
      ensures fresh(callsByKey.Values - old(callsByKey.Values))
      ensures Abs() == StreamOps.CallFor(old(Abs()), key)
    {
      if key in callsByKey {
        return callsByKey[key];
      }
      call := new ToolCall(key);
      callsByKey := callsByKey[key := call];
      toolCalls := toolCalls + [call];
      order := order + [key];
      assert Abs().calls == old(Abs()).calls[key := NEW_CALL];
    }

    /** An assignment to the fields of a shared call, by whichever of its two owners it was reached. */
    method Assign(call: ToolCall, edit: Edit)
      requires Valid() && call.key in callsByKey && callsByKey[call.key] == call
      modifies call
      ensures Valid() && Abs() == old(Abs()).(calls := old(Abs()).calls[call.key := Edited(old(call.Value()), edit)])
    {
      hide Edited;
      call.Apply(edit);
    }

    method AppendText(s: Option<string>)
      requires Valid()
      modifies this`text
      ensures Valid() && Abs() == Fold(old(Abs()), TextIf(s))
    {
      if s.Some? {
        text := text + s.value;
        FoldOne(old(Abs()), Text(s.value));
      }
    }

    /** Assigns a field of a shared call when the payload carries a string for it. */
    method AssignIf(call: ToolCall, field: Field, s: Option<string>)
      requires Valid() && call.key in callsByKey && callsByKey[call.key] == call
      modifies call
      ensures Valid() && Abs() == Fold(old(Abs()), EditIf(call.key, field, s))
    {
      if s.Some? {
        FoldOne(Abs(), On(call.key, EditFor(field, s.value)));
        Assign(call, EditFor(field, s.value));
      }
    }

    /** `callFor` as a step of its own. */
    method Open(key: string) returns (call: ToolCall)
      requires Valid()
      modifies this`toolCalls, this`callsByKey, this`order
      ensures Valid() && call.key == key && key in callsByKey && callsByKey[key] == call
      ensures fresh(callsByKey.Values - old(callsByKey.Values))
      ensures Abs() == Fold(old(Abs()), [On(key, Touch)])
    {
      FoldOne(Abs(), On(key, Touch));
      call := CallFor(key);
      assert Abs().calls[key := Abs().calls[key]] == Abs().calls;
    }

    /** One entry of a chat-completions `tool_calls` delta. */
    method HandleChatCall(rawCall: Json)
      requires Valid()
      modifies this, callsByKey.Values
      ensures Valid() && fresh(callsByKey.Values - old(callsByKey.Values))
      ensures Abs() == Fold(old(Abs()), ChatCallOps(rawCall, str))
    {
      if !rawCall.Obj? { return; }
      var key := ChatKey(rawCall, str);
      var fn := RecordAt(rawCall, "function").GetOr(Obj(map[]));
      var id, kind, name, arguments := StringAt(rawCall, "id"), StringAt(rawCall, "type"), StringAt(fn, "name"), StringAt(fn, "arguments");
      FoldFive(Abs(), [On(key, Touch)], EditIf(key, Id, id), EditIf(key, Kind, kind), EditIf(key, NamePart, name),
               EditIf(key, ArgumentsPart, arguments));
      var call := Open(key);
      AssignIf(call, Id, id);
      AssignIf(call, Kind, kind);
      AssignIf(call, NamePart, name);
      AssignIf(call, ArgumentsPart, arguments);
    }

    method HandleChatCalls(rawCalls: seq<Json>)
      requires Valid()
      modifies this, callsByKey.Values
      ensures Valid() && fresh(callsByKey.Values - old(callsByKey.Values))
      ensures Abs() == Fold(old(Abs()), ChatCallsOps(rawCalls, str))
    {
      ghost var all := Fold(Abs(), ChatCallsOps(rawCalls, str));
      var i := 0;
      while i < |rawCalls|
        invariant i <= |rawCalls| && Valid() && fresh(callsByKey.Values - old(callsByKey.Values))
        invariant Fold(Abs(), ChatCallsOps(rawCalls[i..], str)) == all
      {
        FoldAppend(Abs(), ChatCallOps(rawCalls[i], str), ChatCallsOps(rawCalls[i + 1..], str));
        assert rawCalls[i..][1..] == rawCalls[i + 1..];
        HandleChatCall(rawCalls[i]);
        i := i + 1;
      }
    }

    method HandleChoice(p: Json)
      requires Valid()
      modifies this, callsByKey.Values
      ensures Valid() && fresh(callsByKey.Values - old(callsByKey.Values))
      ensures Abs() == Fold(old(Abs()), ChoiceOps(p, str))
    {
      var choice := FirstRecord(ItemsAt(p, "choices"));
      if choice.None? || RecordAt(choice.value, "delta").None? { return; }
      var delta := RecordAt(choice.value, "delta").value;
      FoldAppend(Abs(), TextIf(StringAt(delta, "content")), ChatCallsOps(ItemsAt(delta, "tool_calls"), str));
      AppendText(StringAt(delta, "content"));
      HandleChatCalls(ItemsAt(delta, "tool_calls"));
    }

    method HandleOutputItem(p: Json)
      requires Valid()
      modifies this, callsByKey.Values
      ensures Valid() && fresh(callsByKey.Values - old(callsByKey.Values))
      ensures Abs() == Fold(old(Abs()), OutputItemOps(p, str))
    {
      var kind, item := StringAt(p, "type"), RecordAt(p, "item");
      if (kind != Some("response.output_item.added") && kind != Some("response.output_item.done"))
        || item.None? || StringAt(item.value, "type") != Some("function_call")
      {
        return;
      }
      hide EditIf, ItemKey, StringAt, RecordAt;
      var key := ItemKey(p, item.value, str);
      var callId := StringAt(item.value, "call_id");
      var id := if callId.Some? then callId else StringAt(item.value, "id");
      var name, arguments := StringAt(item.value, "name"), StringAt(item.value, "arguments");
      FoldFour(Abs(), [On(key, Touch)], EditIf(key, Id, id), EditIf(key, Name, name), EditIf(key, Arguments, arguments));
      var call := Open(key);
      AssignIf(call, Id, id);
      AssignIf(call, Name, name);
      AssignIf(call, Arguments, arguments);
    }

    method AppendArguments(key: string, fragment: Option<string>)
      requires Valid()
      modifies this, callsByKey.Values
      ensures Valid() && fresh(callsByKey.Values - old(callsByKey.Values))
      ensures Abs() == Fold(old(Abs()), EditIf(key, ArgumentsPart, fragment))
    {
      if fragment.None? { return; }
      FoldOne(Abs(), On(key, Edit.AppendArguments(fragment.value)));
      var call := CallFor(key);
      Assign(call, Edit.AppendArguments(fragment.value));
    }

    method HandleArgumentsDelta(p: Json)
      requires Valid()
      modifies this, callsByKey.Values
      ensures Valid() && fresh(callsByKey.Values - old(callsByKey.Values))
      ensures Abs() == Fold(old(Abs()), ArgumentsDeltaOps(p, str))
    {
      if StringAt(p, "type") != Some("response.function_call_arguments.delta") { return; }
      AppendArguments(ResponseKey(p, str), StringAt(p, "delta"));
    }

    method HandleBlockStart(p: Json)
      requires Valid()
      modifies this, callsByKey.Values
      ensures Valid() && fresh(callsByKey.Values - old(callsByKey.Values))
      ensures Abs() == Fold(old(Abs()), BlockStartOps(p, str))
    {
      var block := RecordAt(p, "content_block");
      if StringAt(p, "type") != Some("content_block_start") || block.None? || StringAt(block.value, "type") != Some("tool_use") {
        return;
      }
      hide EditIf, BlockKey, StringAt, RecordAt;
      var key, input := BlockKey(p, str), At(block.value, "input");
      var id, name := StringAt(block.value, "id"), StringAt(block.value, "name");
      ghost var last := if input.Some? && !input.value.Null? then [On(key, SetArguments(input.value))] else [];
      FoldFour(Abs(), [On(key, Touch)], EditIf(key, Id, id), EditIf(key, Name, name), last);
      var call := Open(key);
      AssignIf(call, Id, id);
      AssignIf(call, Name, name);
      if input.Some? && !input.value.Null? {
        FoldOne(Abs(), On(key, SetArguments(input.value)));
        Assign(call, SetArguments(input.value));
      }
    }

    method HandleBlockDelta(p: Json)
      requires Valid()
      modifies this, callsByKey.Values
      ensures Valid() && fresh(callsByKey.Values - old(callsByKey.Values))
      ensures Abs() == Fold(old(Abs()), BlockDeltaOps(p, str))
    {
      var delta := RecordAt(p, "delta");
      if StringAt(p, "type") != Some("content_block_delta") || delta.None? { return; }
      var text, json := StringAt(delta.value, "text"), StringAt(delta.value, "partial_json");
      var isJson := StringAt(delta.value, "type") == Some("input_json_delta");
      FoldAppend(Abs(), TextIf(text), if isJson then EditIf(BlockKey(p, str), ArgumentsPart, json) else []);
      AppendText(text);
      if isJson { AppendArguments(BlockKey(p, str), json); }
    }

    method HandleOutputText(p: Json)
      requires Valid()
      modifies this`text
      ensures Valid() && Abs() == Fold(old(Abs()), OutputTextOps(p))
    {
      if StringAt(p, "type") == Some("response.output_text.delta") {
        AppendText(StringAt(p, "delta"));
      }
    }

    /** The body of the loop for one decoded payload. */
    method Handle(p: Json)
      requires Valid()
      modifies this, callsByKey.Values
      ensures Valid() && fresh(callsByKey.Values - old(callsByKey.Values))
      ensures Abs() == Fold(old(Abs()), Ops(p, str))
    {
      hide ChoiceOps, OutputTextOps, OutputItemOps, ArgumentsDeltaOps, BlockStartOps, BlockDeltaOps, Fold;
      ghost var m := Abs();
      HandleChoice(p);
      HandleOutputText(p);
      HandleOutputItem(p);
      HandleArgumentsDelta(p);
      HandleBlockStart(p);
      HandleBlockDelta(p);
      FoldSix(m, ChoiceOps(p, str), OutputTextOps(p), OutputItemOps(p, str), ArgumentsDeltaOps(p, str), BlockStartOps(p, str),
              BlockDeltaOps(p, str));
    }

    method ReadCalls() returns (calls: seq<CallValue>)
      requires Valid()
      ensures Complete(Abs()) && calls == ListedCalls(Abs())
    {
      ghost var m := Abs();
      calls := [];
      while |calls| < |toolCalls|
        invariant |calls| <= |toolCalls|
        invariant forall n | 0 <= n < |calls| :: calls[n] == m.calls[m.order[n]]
      {
        calls := calls + [toolCalls[|calls|].Value()];
      }
    }
  }

  lemma FoldOne(m: Message, op: Op)
    ensures Fold(m, [op]) == Step(m, op)
  {
    assert [op][1..] == [];
  }

  lemma FoldFour(m: Message, a: seq<Op>, b: seq<Op>, c: seq<Op>, d: seq<Op>)
    ensures Fold(m, a + b + c + d) == Fold(Fold(Fold(Fold(m, a), b), c), d)
  {
    FoldAppend(m, a + b + c, d);
    FoldAppend(m, a + b, c);
    FoldAppend(m, a, b);
  }

  lemma FoldFive(m: Message, a: seq<Op>, b: seq<Op>, c: seq<Op>, d: seq<Op>, e: seq<Op>)
    ensures Fold(m, a + b + c + d + e) == Fold(Fold(Fold(Fold(Fold(m, a), b), c), d), e)
  {
    FoldAppend(m, a + b + c + d, e);
    FoldFour(m, a, b, c, d);
  }

  lemma FoldSix(m: Message, a: seq<Op>, b: seq<Op>, c: seq<Op>, d: seq<Op>, e: seq<Op>, f: seq<Op>)
    ensures Fold(m, a + b + c + d + e + f) == Fold(Fold(Fold(Fold(Fold(Fold(m, a), b), c), d), e), f)
  {
    FoldAppend(m, a + b + c + d + e, f);
    FoldFive(m, a, b, c, d, e);
  }

  // ----- the recorded stream -----------------------------------------------------------------------------

  const DATA := "data:"

  /** The payload of a line: `decode` trims the text after `data:` and parses it as JSON, and is None
    * for blank text, for [DONE] and for what does not parse. */
  function PayloadOf(line: string, decode: string -> Option<Json>): Option<Json> {
    if DATA <= line then decode(line[|DATA|..]) else None
  }

  function Payloads(lines: seq<string>, decode: string -> Option<Json>): seq<Json> {
    if lines == [] then []
    else
      var p := PayloadOf(lines[0], decode);
      (if p.Some? then [p.value] else []) + Payloads(lines[1..], decode)
  }

  function ListedCalls(m: Message): seq<CallValue>
    requires forall k | k in m.order :: k in m.calls
  {
    seq(|m.order|, i requires 0 <= i < |m.order| => m.calls[m.order[i]])
  }

  /** The assistant message a reassembled stream stands for, if it says anything. */
  function Answer(m: Message): Option<Assistant>
    requires forall k | k in m.order :: k in m.calls
  {
    var calls := ListedCalls(m);
    if m.text == "" && calls == [] then None
    else Some(Assistant(if m.text == "" then None else Some(m.text), calls))
  }

  ghost predicate Complete(m: Message) {
    forall k | k in m.order :: k in m.calls
  }

  lemma StreamIsComplete(ops: seq<Op>)
    ensures Complete(Fold(EMPTY, ops))
  {
    ReassemblyIsPerKey(ops);
  }

  lemma {:induction false} PayloadsConcat(a: seq<string>, b: seq<string>, decode: string -> Option<Json>)
    ensures Payloads(a + b, decode) == Payloads(a, decode) + Payloads(b, decode)
  {
    hide PayloadOf;
    if a == [] {
      assert a + b == b && [] + Payloads(b, decode) == Payloads(b, decode);
    } else {
      assert (a + b)[1..] == a[1..] + b;
      PayloadsConcat(a[1..], b, decode);
      var p := PayloadOf(a[0], decode);
      var x, y, z := if p.Some? then [p.value] else [], Payloads(a[1..], decode), Payloads(b, decode);
      assert x + (y + z) == (x + y) + z;
    }
  }

  /** What a stream of lines is answered with. */
  ghost function StreamAnswer(lines: seq<string>, decode: string -> Option<Json>, str: Json -> string): Option<Assistant> {
    StreamIsComplete(AllOps(Payloads(lines, decode), str));
    Answer(Fold(EMPTY, AllOps(Payloads(lines, decode), str)))
  }

  lemma OneLine(line: string, decode: string -> Option<Json>)
    ensures Payloads([line], decode) == if PayloadOf(line, decode).Some? then [PayloadOf(line, decode).value] else []
  {
    assert [line][1..] == [];
  }

  /** Replacing the line of a delta payload by the two lines of its parts leaves the answer as it is,
    * wherever the line stands and whatever else is in the stream. */
  lemma SplittingLinesIsInvisible(before: seq<string>, whole: string, first: string, second: string, after: seq<string>,
                                  c: Cut, decode: string -> Option<Json>, str: Json -> string)
    requires PayloadOf(whole, decode).Some? && PayloadOf(first, decode).Some? && PayloadOf(second, decode).Some?
    requires Cuts(c, PayloadOf(whole, decode).value, PayloadOf(first, decode).value, PayloadOf(second, decode).value, str)
    ensures StreamAnswer(before + [whole] + after, decode, str) == StreamAnswer(before + [first, second] + after, decode, str)
  {
    hide Fold, AllOps, Cuts, PayloadOf, Payloads;
    var w, x, y := PayloadOf(whole, decode).value, PayloadOf(first, decode).value, PayloadOf(second, decode).value;
    PayloadsConcat(before + [whole], after, decode);
    PayloadsConcat(before, [whole], decode);
    OneLine(whole, decode);
    PayloadsConcat(before + [first, second], after, decode);
    PayloadsConcat(before, [first, second], decode);
    assert [first] + [second] == [first, second];
    PayloadsConcat([first], [second], decode);
    OneLine(first, decode);
    OneLine(second, decode);
    assert [x] + [y] == [x, y];
    SplittingPayloadsIsInvisible(Payloads(before, decode), w, x, y, Payloads(after, decode), c, str);
  }

  /** The loop over the lines. */
  method Reassemble(lines: seq<string>, decode: string -> Option<Json>, str: Json -> string) returns (acc: Reassembly)
    ensures acc.Valid() && acc.Abs() == Fold(EMPTY, AllOps(Payloads(lines, decode), str))
  {
    hide Fold, AllOps, Payloads, Ops;
    acc := new Reassembly(str);
    ghost var all := Fold(EMPTY, AllOps(Payloads(lines, decode), str));
    var i := 0;
    assert lines[0..] == lines;
    while i < |lines|
      invariant i <= |lines| && acc.Valid() && fresh(acc) && fresh(acc.callsByKey.Values)
      invariant Fold(acc.Abs(), AllOps(Payloads(lines[i..], decode), str)) == all
    {
      var p := PayloadOf(lines[i], decode);
      PayloadsStep(acc.Abs(), lines[i..], decode, str);
      assert lines[i..][1..] == lines[i + 1..];
      i := i + 1;
      if p.None? { continue; }
      acc.Handle(p.value);
    }
    assert lines[i..] == [];
    NoPayloads(acc.Abs(), decode, str);
  }

  lemma NoPayloads(m: Message, decode: string -> Option<Json>, str: Json -> string)
    ensures Fold(m, AllOps(Payloads([], decode), str)) == m
  {
  }

  lemma PayloadsStep(m: Message, lines: seq<string>, decode: string -> Option<Json>, str: Json -> string)
    requires lines != []
    ensures var p := PayloadOf(lines[0], decode);
      Fold(m, AllOps(Payloads(lines, decode), str)) ==
      Fold(if p.Some? then Fold(m, Ops(p.value, str)) else m, AllOps(Payloads(lines[1..], decode), str))
  {
    var p, rest := PayloadOf(lines[0], decode), Payloads(lines[1..], decode);
    if p.Some? {
      assert ([p.value] + rest)[1..] == rest;
      FoldAppend(m, Ops(p.value, str), AllOps(rest, str));
    } else {
      assert [] + rest == rest;
    }
  }

  method ExtractStreamResponse(lines: seq<string>, decode: string -> Option<Json>, str: Json -> string)
    returns (r: Option<Assistant>)
    ensures r == StreamAnswer(lines, decode, str)
  {
    hide Fold, AllOps, Payloads;
    StreamIsComplete(AllOps(Payloads(lines, decode), str));
    var acc := Reassemble(lines, decode, str);
    var calls := acc.ReadCalls();
    if acc.text == "" && calls == [] { return None; }
    return Some(Assistant(if acc.text == "" then None else Some(acc.text), calls));
  }
}
