/** What a streamed call adds up to, said by the fields of its payloads: the event that opens it, then
  * its argument fragments, wherever other payloads stand in between.
  */
module StreamCalls {
  import opened Prelude
  import opened JsonPaths
  import opened StreamOps
  import opened StreamResponse

  // ----- reading fields ------------------------------------------------------------------------------------

  /** A field is read exactly when the payload is a record that has it, of the kind asked for. */
  lemma FieldsRead(v: Json, key: string, s: string, x: Json)
    ensures StringAt(v, key) == Some(s) <==> exists m :: v == Obj(m) && key in m && m[key] == Str(s)
    ensures RecordAt(v, key) == Some(x) <==> x.Obj? && exists m :: v == Obj(m) && key in m && m[key] == x
    ensures At(v, key) == Some(x) <==> exists m :: v == Obj(m) && key in m && m[key] == x
    ensures ItemsAt(v, key) == if At(v, key).Some? && At(v, key).value.Arr? then At(v, key).value.items else []
  {
    if v.Obj? { assert v == Obj(v.fields); }
  }

  lemma {:induction false} FirstRecordExactly(before: seq<Json>, choice: Json, after: seq<Json>)
    requires choice.Obj? && forall i | 0 <= i < |before| :: !before[i].Obj?
    ensures FirstRecord(before + [choice] + after) == Some(choice)
  {
    var all := before + [choice] + after;
    if before == [] {
      assert all[0] == choice;
    } else {
      assert all[1..] == before[1..] + [choice] + after;
      FirstRecordExactly(before[1..], choice, after);
    }
  }

  /** The chat delta is that of the first record among the choices, whatever follows it. */
  lemma ChatDeltaExactly(p: Json, before: seq<Json>, choice: Json, after: seq<Json>)
    requires At(p, "choices") == Some(Arr(before + [choice] + after))
    requires choice.Obj? && forall i | 0 <= i < |before| :: !before[i].Obj?
    ensures forall delta: Json :: ChatDelta(p) == Some(delta) <==> delta.Obj? && At(choice, "delta") == Some(delta)
  {
    FirstRecordExactly(before, choice, after);
  }

  // ----- one call within a stream -----------------------------------------------------------------------

  /** The call of a key, or the one that its first operation would make. */
  function CallOf(m: Message, key: string): CallValue {
    if key in m.calls then m.calls[key] else NEW_CALL
  }

  lemma {:induction false} EditsConcat(a: seq<Op>, b: seq<Op>, key: string)
    ensures EditsOf(a + b, key) == EditsOf(a, key) + EditsOf(b, key)
    decreases |b|
  {
    if b == [] {
      assert a + b == a;
    } else {
      var front := b[..|b| - 1];
      assert (a + b)[..|a + b| - 1] == a + front;
      EditsConcat(a, front, key);
    }
  }

  lemma {:induction false} EditAllConcat(c: CallValue, a: seq<Edit>, b: seq<Edit>)
    ensures EditAll(c, a + b) == EditAll(EditAll(c, a), b)
    decreases |b|
  {
    if b == [] {
      assert a + b == a;
    } else {
      assert (a + b)[..|a + b| - 1] == a + b[..|b| - 1];
      EditAllConcat(c, a, b[..|b| - 1]);
    }
  }

  /** From any message on, a call changes by its own key's operations alone. */
  lemma {:induction false} CallAfter(m: Message, ops: seq<Op>, key: string)
    ensures CallOf(Fold(m, ops), key) == EditAll(CallOf(m, key), EditsOf(ops, key))
    ensures key in Fold(m, ops).calls <==> key in m.calls || EditsOf(ops, key) != []
    decreases |ops|
  {
    if ops != [] {
      var front, last := ops[..|ops| - 1], ops[|ops| - 1];
      CallAfter(m, front, key);
      FoldLast(m, ops);
      if last.On? && last.key == key {
        EditsSnoc(CallOf(m, key), EditsOf(front, key), last.edit);
      } else {
        assert EditsOf(ops, key) == EditsOf(front, key);
      }
    }
  }

  // ----- the readers keep to keys of their own ------------------------------------------------------------

  predicate Off(ops: seq<Op>, key: string) {
    forall i | 0 <= i < |ops| && ops[i].On? :: ops[i].key != key
  }

  lemma {:induction false} OffEdits(ops: seq<Op>, key: string)
    requires Off(ops, key)
    ensures EditsOf(ops, key) == []
  {
    if ops != [] { OffEdits(ops[..|ops| - 1], key); }
  }

  /** Every key starts with the letter. */
  predicate Lettered(ops: seq<Op>, letter: char) {
    forall i | 0 <= i < |ops| && ops[i].On? :: ops[i].key != "" && ops[i].key[0] == letter
  }

  lemma {:induction false} ChatCallsLettered(rawCalls: seq<Json>, str: Json -> string)
    ensures Lettered(ChatCallsOps(rawCalls, str), 'c')
  {
    if rawCalls != [] {
      ChatCallsLettered(rawCalls[1..], str);
      assert Lettered(ChatCallOps(rawCalls[0], str), 'c');
    }
  }

  lemma ChoiceLettered(p: Json, str: Json -> string)
    ensures Lettered(ChoiceOps(p, str), 'c') && Lettered(OutputTextOps(p), 'o')
  {
    hide ChatCallsOps, ChatDelta;
    var delta := ChatDelta(p);
    if delta.Some? { ChatCallsLettered(ItemsAt(delta.value, "tool_calls"), str); }
  }

  lemma EditLettered(key: string, field: Field, s: Option<string>, letter: char)
    requires key != "" && key[0] == letter
    ensures Lettered([On(key, Touch)], letter) && Lettered(EditIf(key, field, s), letter)
  {
  }

  lemma OpeningLettered(key: string, a: seq<Op>, b: seq<Op>, c: seq<Op>, letter: char)
    requires key != "" && key[0] == letter && Lettered(a, letter) && Lettered(b, letter) && Lettered(c, letter)
    ensures Lettered([On(key, Touch)] + a + b + c, letter) && Lettered([], letter)
  {
  }

  lemma ResponsesLettered(p: Json, str: Json -> string)
    ensures Lettered(OutputItemOps(p, str), 'r') && Lettered(ArgumentsDeltaOps(p, str), 'r')
  {
    hide IndexText, EditIf, Lettered, StringAt, RecordAt;
    EditLettered(ResponseKey(p, str), ArgumentsPart, StringAt(p, "delta"), 'r');
    var item := RecordAt(p, "item").GetOr(Null);
    var key, callId := ItemKey(p, item, str), StringAt(item, "call_id");
    EditLettered(key, Id, if callId.Some? then callId else StringAt(item, "id"), 'r');
    EditLettered(key, Name, StringAt(item, "name"), 'r');
    EditLettered(key, Arguments, StringAt(item, "arguments"), 'r');
    OpeningLettered(key, EditIf(key, Id, if callId.Some? then callId else StringAt(item, "id")), EditIf(key, Name, StringAt(item, "name")),
                    EditIf(key, Arguments, StringAt(item, "arguments")), 'r');
  }

  lemma BlocksLettered(p: Json, str: Json -> string)
    ensures Lettered(BlockStartOps(p, str), 'a') && Lettered(BlockDeltaOps(p, str), 'a')
  {
    hide IndexText, StringAt, RecordAt, At;
  }

  lemma LetteredEdits(ops: seq<Op>, letter: char, key: string)
    requires Lettered(ops, letter) && key != "" && key[0] != letter
    ensures EditsOf(ops, key) == []
  {
    OffEdits(ops, key);
  }

  /** What a payload does to a call comes from the readers of the call's provider. */
  lemma PayloadEdits(p: Json, key: string, str: Json -> string)
    requires key != ""
    ensures key[0] == 'c' ==> EditsOf(Ops(p, str), key) == EditsOf(ChoiceOps(p, str), key)
    ensures key[0] == 'r' ==> EditsOf(Ops(p, str), key) == EditsOf(OutputItemOps(p, str), key) + EditsOf(ArgumentsDeltaOps(p, str), key)
    ensures key[0] == 'a' ==> EditsOf(Ops(p, str), key) == EditsOf(BlockStartOps(p, str), key) + EditsOf(BlockDeltaOps(p, str), key)
  {
    hide ChoiceOps, OutputTextOps, OutputItemOps, ArgumentsDeltaOps, BlockStartOps, BlockDeltaOps, EditsOf;
    var a, b, c, d, e, f := ChoiceOps(p, str), OutputTextOps(p), OutputItemOps(p, str), ArgumentsDeltaOps(p, str), BlockStartOps(p, str),
                            BlockDeltaOps(p, str);
    EditsConcat(a + b + c + d + e, f, key);
    EditsConcat(a + b + c + d, e, key);
    EditsConcat(a + b + c, d, key);
    EditsConcat(a + b, c, key);
    EditsConcat(a, b, key);
    ChoiceLettered(p, str);
    ResponsesLettered(p, str);
    BlocksLettered(p, str);
    if key[0] != 'c' { LetteredEdits(a, 'c', key); }
    if key[0] != 'o' { LetteredEdits(b, 'o', key); }
    if key[0] != 'r' { LetteredEdits(c, 'r', key); LetteredEdits(d, 'r', key); }
    if key[0] != 'a' { LetteredEdits(e, 'a', key); LetteredEdits(f, 'a', key); }
  }

  // ----- fragments ----------------------------------------------------------------------------------------

  /** The fragments that payload after payload brings to one call. */
  function Spell(fragments: seq<Option<string>>): string {
    if fragments == [] then "" else fragments[0].GetOr("") + Spell(fragments[1..])
  }

  /** Arguments that go on with the fragments; what is not text gives way to them. */
  function Continued(base: Option<Json>, fragments: seq<Option<string>>): Option<Json> {
    if exists i | 0 <= i < |fragments| :: fragments[i].Some? then Some(Str(TextOf(base) + Spell(fragments))) else base
  }

  /** The payload brings the call of the key this fragment, or nothing. */
  predicate Brings(p: Json, key: string, fragment: Option<string>, str: Json -> string) {
    var edits := EditsOf(Ops(p, str), key);
    if fragment.Some? then edits == [AppendArguments(fragment.value)] || edits == [Touch, AppendArguments(fragment.value)]
    else edits == []
  }

  lemma ContinuedStep(base: Option<Json>, f: Option<string>, rest: seq<Option<string>>)
    ensures Continued(base, [f] + rest) == Continued(if f.Some? then Some(Str(TextOf(base) + f.value)) else base, rest)
  {
    var all := [f] + rest;
    assert all[1..] == rest;
    if f.Some? {
      assert TextOf(base) + (f.value + Spell(rest)) == (TextOf(base) + f.value) + Spell(rest);
      assert all[0].Some?;
      if forall i | 0 <= i < |rest| :: rest[i].None? {
        SpellsNothing(rest);
        assert TextOf(base) + f.value + "" == TextOf(base) + f.value;
      }
    } else {
      assert "" + Spell(rest) == Spell(rest);
      if i :| 0 <= i < |rest| && rest[i].Some? { assert all[i + 1].Some?; }
    }
  }

  lemma {:induction false} SpellsNothing(fragments: seq<Option<string>>)
    requires forall i | 0 <= i < |fragments| :: fragments[i].None?
    ensures Spell(fragments) == ""
  {
    if fragments != [] { SpellsNothing(fragments[1..]); }
  }

  lemma FragmentContinues(m: Message, p: Json, key: string, f: Option<string>, str: Json -> string)
    requires Brings(p, key, f, str)
    ensures var c := CallOf(m, key);
      CallOf(Fold(m, Ops(p, str)), key) == c.(arguments := if f.Some? then Some(Str(TextOf(c.arguments) + f.value)) else c.arguments)
    ensures key in m.calls ==> key in Fold(m, Ops(p, str)).calls
  {
    hide Ops, Fold, EditsOf, CallOf;
    CallAfter(m, Ops(p, str), key);
    if f.Some? {
      var c, e := CallOf(m, key), AppendArguments(f.value);
      EditsSnoc(c, [], e);
      EditsSnoc(c, [Touch], e);
      assert [] + [e] == [e] && [Touch] + [e] == [Touch, e];
      TouchAll(c);
    }
  }

  lemma {:induction false} FragmentsContinue(m: Message, ps: seq<Json>, key: string, fragments: seq<Option<string>>, str: Json -> string)
    requires |ps| == |fragments| && forall i | 0 <= i < |ps| :: Brings(ps[i], key, fragments[i], str)
    ensures var c := CallOf(m, key); CallOf(Fold(m, AllOps(ps, str)), key) == c.(arguments := Continued(c.arguments, fragments))
    ensures key in m.calls ==> key in Fold(m, AllOps(ps, str)).calls
    decreases |ps|
  {
    hide Ops, Brings;
    if ps != [] {
      hide Fold, Continued, CallOf;
      FoldAppend(m, Ops(ps[0], str), AllOps(ps[1..], str));
      FragmentContinues(m, ps[0], key, fragments[0], str);
      ContinuedStep(CallOf(m, key).arguments, fragments[0], fragments[1..]);
      assert fragments == [fragments[0]] + fragments[1..];
      FragmentsContinue(Fold(m, Ops(ps[0], str)), ps[1..], key, fragments[1..], str);
    }
  }

  /** A payload that edits the call and then payloads that bring it fragments, anywhere in a stream. */
  lemma EditsThenFragments(before: seq<Json>, p: Json, edits: seq<Edit>, rest: seq<Json>, key: string, fragments: seq<Option<string>>, str: Json -> string)
    requires EditsOf(Ops(p, str), key) == edits != []
    requires |rest| == |fragments| && forall i | 0 <= i < |rest| :: Brings(rest[i], key, fragments[i], str)
    ensures var m, c := Fold(EMPTY, AllOps(before + [p] + rest, str)), EditAll(CallOf(Fold(EMPTY, AllOps(before, str)), key), edits);
      key in m.calls && m.calls[key] == c.(arguments := Continued(c.arguments, fragments))
  {
    hide Ops, Fold, AllOps, Continued, EditAll, Brings;
    FoldThree(before, [p], rest, str);
    OnePayload(p, str);
    var m := Fold(EMPTY, AllOps(before, str));
    CallAfter(m, Ops(p, str), key);
    FragmentsContinue(Fold(m, Ops(p, str)), rest, key, fragments, str);
  }

  // ----- opening a call ---------------------------------------------------------------------------------------

  function Maybe(field: Field, s: Option<string>): seq<Edit> {
    if s.Some? then [EditFor(field, s.value)] else []
  }

  lemma EditIfEdits(key: string, field: Field, s: Option<string>)
    ensures EditsOf(EditIf(key, field, s), key) == Maybe(field, s)
  {
    if s.Some? {
      assert EditIf(key, field, s)[..0] == [];
    }
  }

  lemma TouchEdits(key: string)
    ensures EditsOf([On(key, Touch)], key) == [Touch]
  {
    assert [On(key, Touch)][..0] == [];
  }

  lemma {:induction false} EditsOfFour(a: seq<Op>, b: seq<Op>, c: seq<Op>, d: seq<Op>, key: string)
    ensures EditsOf(a + b + c + d, key) == EditsOf(a, key) + EditsOf(b, key) + EditsOf(c, key) + EditsOf(d, key)
  {
    hide EditsOf;
    EditsConcat(a + b + c, d, key);
    EditsConcat(a + b, c, key);
    EditsConcat(a, b, key);
  }

  lemma EditMaybe(c: CallValue, field: Field, s: Option<string>)
    ensures EditAll(c, Maybe(field, s)) == if s.Some? then Edited(c, EditFor(field, s.value)) else c
  {
    hide Edited, EditFor;
    if s.Some? {
      EditsSnoc(c, [], EditFor(field, s.value));
      assert [] + [EditFor(field, s.value)] == [EditFor(field, s.value)];
    }
  }

  lemma TouchAll(c: CallValue)
    ensures EditAll(c, [Touch]) == c
  {
    assert [Touch][..0] == [];
  }

  function Or(s: Option<string>, was: Option<string>): Option<string> {
    if s.Some? then s else was
  }

  // ----- a function call of the Responses API --------------------------------------------------------------------

  /** The index that a payload gives; without one it is 0. */
  predicate IndexIs(v: Json, key: string, i: Json) {
    var x := At(v, key);
    (x == Some(i) && !i.Null?) || ((x.None? || x.value.Null?) && i == Num(0.0))
  }

  /** The payload adds or completes this function-call item. */
  predicate IsItem(p: Json, item: Json) {
    var kind := StringAt(p, "type");
    && (kind == Some("response.output_item.added") || kind == Some("response.output_item.done"))
    && RecordAt(p, "item") == Some(item) && StringAt(item, "type") == Some("function_call")
  }

  /** The item goes by its id, or else by its call id, or else by its place in the output. */
  ghost predicate ItemIs(p: Json, item: Json, x: string, str: Json -> string) {
    if StringAt(item, "id").Some? then StringAt(item, "id") == Some(x)
    else if StringAt(item, "call_id").Some? then StringAt(item, "call_id") == Some(x)
    else exists i :: IndexIs(p, "output_index", i) && str(i) == x
  }

  predicate IsArgumentsDelta(p: Json, s: string) {
    StringAt(p, "type") == Some("response.function_call_arguments.delta") && StringAt(p, "delta") == Some(s)
  }

  ghost predicate DeltaIs(p: Json, x: string, str: Json -> string) {
    if StringAt(p, "item_id").Some? then StringAt(p, "item_id") == Some(x)
    else exists i :: IndexIs(p, "output_index", i) && str(i) == x
  }

  /** The payload is an argument delta of item `x` with this fragment, or has nothing to do with `x`. */
  ghost predicate ItemFragment(p: Json, x: string, fragment: Option<string>, str: Json -> string) {
    if fragment.Some? then IsArgumentsDelta(p, fragment.value) && DeltaIs(p, x, str)
    else
      && (forall item | IsItem(p, item) :: !ItemIs(p, item, x, str))
      && (forall s | IsArgumentsDelta(p, s) :: !DeltaIs(p, x, str))
  }

  lemma IndexReads(v: Json, key: string, str: Json -> string, x: string)
    ensures (exists i :: IndexIs(v, key, i) && str(i) == x) <==> IndexText(v, key, str) == x
  {
    var y := At(v, key);
    var i := if y.Some? && !y.value.Null? then y.value else Num(0.0);
    assert IndexIs(v, key, i);
  }

  lemma SamePrefix(prefix: string, a: string, b: string)
    ensures prefix + a == prefix + b <==> a == b
  {
    assert (prefix + a)[|prefix|..] == a && (prefix + b)[|prefix|..] == b;
  }

  lemma ItemKeyIs(p: Json, item: Json, x: string, str: Json -> string)
    ensures ItemKey(p, item, str) == "response:" + x <==> ItemIs(p, item, x, str)
  {
    hide IndexText, IndexIs, StringAt;
    IndexReads(p, "output_index", str, x);
    SamePrefix("response:", StringAt(item, "id").GetOr(StringAt(item, "call_id").GetOr(IndexText(p, "output_index", str))), x);
  }

  lemma ResponseKeyIs(p: Json, x: string, str: Json -> string)
    ensures ResponseKey(p, str) == "response:" + x <==> DeltaIs(p, x, str)
  {
    hide IndexText, IndexIs, StringAt;
    IndexReads(p, "output_index", str, x);
    SamePrefix("response:", StringAt(p, "item_id").GetOr(IndexText(p, "output_index", str)), x);
  }

  lemma ItemFragmentBrings(p: Json, x: string, fragment: Option<string>, str: Json -> string)
    requires ItemFragment(p, x, fragment, str)
    ensures Brings(p, "response:" + x, fragment, str)
  {
    var key := "response:" + x;
    PayloadEdits(p, key, str);
    ItemOpsEdits(p, x, str);
    DeltaOpsEdits(p, x, str);
    hide EditsOf, OutputItemOps, ArgumentsDeltaOps, ItemIs, DeltaIs;
    if fragment.Some? { assert !IsItem(p, RecordAt(p, "item").GetOr(Null)); }
  }

  lemma ItemOpsEdits(p: Json, x: string, str: Json -> string)
    ensures (forall item | IsItem(p, item) :: !ItemIs(p, item, x, str)) ==> EditsOf(OutputItemOps(p, str), "response:" + x) == []
  {
    hide EditIf, ItemKey, ItemIs, StringAt, RecordAt;
    var item := RecordAt(p, "item").GetOr(Null);
    ItemKeyIs(p, item, x, str);
    if IsItem(p, item) && !ItemIs(p, item, x, str) {
      var key, callId := ItemKey(p, item, str), StringAt(item, "call_id");
      EditIfOff(key, Id, if callId.Some? then callId else StringAt(item, "id"), "response:" + x);
      EditIfOff(key, Name, StringAt(item, "name"), "response:" + x);
      EditIfOff(key, Arguments, StringAt(item, "arguments"), "response:" + x);
      OffEdits(OutputItemOps(p, str), "response:" + x);
    }
  }

  lemma EditIfOff(key: string, field: Field, s: Option<string>, other: string)
    requires key != other
    ensures Off(EditIf(key, field, s), other)
  {
  }

  lemma DeltaOpsEdits(p: Json, x: string, str: Json -> string)
    ensures forall s | IsArgumentsDelta(p, s) && DeltaIs(p, x, str) ::
      EditsOf(ArgumentsDeltaOps(p, str), "response:" + x) == [AppendArguments(s)]
    ensures (forall s | IsArgumentsDelta(p, s) :: !DeltaIs(p, x, str)) ==> EditsOf(ArgumentsDeltaOps(p, str), "response:" + x) == []
  {
    hide EditIf, ResponseKey, DeltaIs, StringAt;
    ResponseKeyIs(p, x, str);
    var delta := StringAt(p, "delta");
    EditIfEdits("response:" + x, ArgumentsPart, delta);
    if delta.Some? && IsArgumentsDelta(p, delta.value) && !DeltaIs(p, x, str) {
      EditIfOff(ResponseKey(p, str), ArgumentsPart, delta, "response:" + x);
      OffEdits(ArgumentsDeltaOps(p, str), "response:" + x);
    }
    if delta.None? { assert EditIf(ResponseKey(p, str), ArgumentsPart, delta) == [] by { NothingIf(ResponseKey(p, str), ArgumentsPart); } }
  }

  lemma NothingIf(key: string, field: Field)
    ensures EditIf(key, field, None) == []
  {
  }

  /** What an item event makes of its call: the id is the call id if there is one, name and arguments
    * are replaced. */
  function WithItem(c: CallValue, item: Json): CallValue {
    var arguments := StringAt(item, "arguments");
    CallValue(Or(StringAt(item, "call_id"), Or(StringAt(item, "id"), c.id)), c.kind, Or(StringAt(item, "name"), c.name),
              if arguments.Some? then Some(Str(arguments.value)) else c.arguments)
  }

  lemma OpeningEdits(c: CallValue, key: string, a: seq<Op>, b: seq<Op>, d: seq<Op>, x: seq<Edit>, y: seq<Edit>, z: seq<Edit>)
    requires EditsOf(a, key) == x && EditsOf(b, key) == y && EditsOf(d, key) == z
    ensures var edits := EditsOf([On(key, Touch)] + a + b + d, key);
      edits != [] && EditAll(c, edits) == EditAll(EditAll(EditAll(c, x), y), z)
  {
    hide EditsOf, EditAll;
    EditsOfFour([On(key, Touch)], a, b, d, key);
    TouchEdits(key);
    EditAllConcat(c, [Touch] + x + y, z);
    EditAllConcat(c, [Touch] + x, y);
    EditAllConcat(c, [Touch], x);
    TouchAll(c);
  }

  lemma ItemOpens(p: Json, item: Json, x: string, c: CallValue, str: Json -> string)
    requires IsItem(p, item) && ItemIs(p, item, x, str)
    ensures var edits := EditsOf(Ops(p, str), "response:" + x); edits != [] && EditAll(c, edits) == WithItem(c, item)
  {
    hide Ops, EditsOf, EditIf, EditAll, ItemKey, ItemIs, Maybe, StringAt, RecordAt;
    var key, callId := "response:" + x, StringAt(item, "call_id");
    var id, name, arguments := if callId.Some? then callId else StringAt(item, "id"), StringAt(item, "name"), StringAt(item, "arguments");
    ItemKeyIs(p, item, x, str);
    PayloadEdits(p, key, str);
    assert ArgumentsDeltaOps(p, str) == [];
    EditsOfNothing(key);
    assert EditsOf(OutputItemOps(p, str), key) + [] == EditsOf(OutputItemOps(p, str), key);
    EditIfEdits(key, Id, id);
    EditIfEdits(key, Name, name);
    EditIfEdits(key, Arguments, arguments);
    OpeningEdits(c, key, EditIf(key, Id, id), EditIf(key, Name, name), EditIf(key, Arguments, arguments),
                 Maybe(Id, id), Maybe(Name, name), Maybe(Arguments, arguments));
    EditMaybe(c, Id, id);
    var c1 := EditAll(c, Maybe(Id, id));
    EditMaybe(c1, Name, name);
    EditMaybe(EditAll(c1, Maybe(Name, name)), Arguments, arguments);
  }

  lemma EditsOfNothing(key: string)
    ensures EditsOf([], key) == []
  {
  }

  /** A function-call item, added or completed, and then its argument deltas, whatever else stands before
    * and between: its call has the item's call id (or id), its name, and its arguments followed by every
    * later fragment. */
  lemma ItemThenFragments(before: seq<Json>, p: Json, item: Json, rest: seq<Json>, x: string, fragments: seq<Option<string>>, str: Json -> string)
    requires IsItem(p, item) && ItemIs(p, item, x, str)
    requires |rest| == |fragments| && forall i | 0 <= i < |rest| :: ItemFragment(rest[i], x, fragments[i], str)
    ensures var m, key := Fold(EMPTY, AllOps(before + [p] + rest, str)), "response:" + x;
      var c := WithItem(CallOf(Fold(EMPTY, AllOps(before, str)), key), item);
      key in m.calls && m.calls[key] == c.(arguments := Continued(c.arguments, fragments))
  {
    hide Ops, Fold, AllOps, EditAll, Continued, ItemFragment, WithItem, IsItem, ItemIs, Brings;
    var key := "response:" + x;
    ItemOpens(p, item, x, CallOf(Fold(EMPTY, AllOps(before, str)), key), str);
    forall i | 0 <= i < |rest| ensures Brings(rest[i], key, fragments[i], str) { ItemFragmentBrings(rest[i], x, fragments[i], str); }
    EditsThenFragments(before, p, EditsOf(Ops(p, str), key), rest, key, fragments, str);
  }

  // ----- a stream of one call ---------------------------------------------------------------------------------------

  predicate Only(ops: seq<Op>, key: string) {
    forall i | 0 <= i < |ops| :: ops[i].On? && ops[i].key == key
  }

  lemma {:induction false} OnlyFolds(ops: seq<Op>, key: string)
    requires Only(ops, key)
    ensures var m := Fold(EMPTY, ops);
      m.text == "" && m.calls.Keys == (if ops == [] then {} else {key}) && m.order == (if ops == [] then [] else [key])
    decreases |ops|
  {
    if ops != [] {
      OnlyFolds(ops[..|ops| - 1], key);
      FoldLast(EMPTY, ops);
    }
  }

  lemma {:induction false} AllOnly(ps: seq<Json>, key: string, str: Json -> string)
    requires forall i | 0 <= i < |ps| :: Only(Ops(ps[i], str), key)
    ensures Only(AllOps(ps, str), key)
  {
    hide Ops;
    if ps != [] {
      assert forall i | 0 <= i < |ps[1..]| :: ps[1..][i] == ps[i + 1];
      AllOnly(ps[1..], key, str);
    }
  }

  /** When every payload speaks of one call only, the answer is that call and nothing else. */
  lemma OnlyCallAnswers(lines: seq<string>, decode: string -> Option<Json>, ps: seq<Json>, key: string, str: Json -> string)
    requires Payloads(lines, decode) == ps && forall i | 0 <= i < |ps| :: Only(Ops(ps[i], str), key)
    requires key in Fold(EMPTY, AllOps(ps, str)).calls
    ensures StreamAnswer(lines, decode, str) == Some(Assistant(None, [Fold(EMPTY, AllOps(ps, str)).calls[key]]))
  {
    hide Ops, Fold, AllOps, Payloads;
    AllOnly(ps, key, str);
    OnlyFolds(AllOps(ps, str), key);
    var m := Fold(EMPTY, AllOps(ps, str));
    StreamIsComplete(AllOps(ps, str));
    assert AllOps(ps, str) != [];
    assert ListedCalls(m) == [m.calls[key]];
  }

  /** The payload holds nothing for the reassembly: no chat delta and no type that it reads. */
  predicate Quiet(p: Json) {
    Untyped(p) && ChatDelta(p).None?
  }

  lemma QuietOps(p: Json, str: Json -> string)
    requires Quiet(p)
    ensures Ops(p, str) == []
  {
    hide Ops, Untyped;
    UntypedIsChat(p, str);
  }

  lemma ItemOnly(p: Json, item: Json, x: string, str: Json -> string)
    requires IsItem(p, item) && ItemIs(p, item, x, str) && ChatDelta(p).None?
    ensures Only(Ops(p, str), "response:" + x)
  {
    hide ChoiceOps, OutputTextOps, ArgumentsDeltaOps, BlockStartOps, BlockDeltaOps, ItemKey, ItemIs, ChatDelta;
    OthersAreQuiet(p, str);
    ItemKeyIs(p, item, x, str);
  }

  lemma DeltaOnly(p: Json, s: string, x: string, str: Json -> string)
    requires IsArgumentsDelta(p, s) && DeltaIs(p, x, str) && ChatDelta(p).None?
    ensures Only(Ops(p, str), "response:" + x)
  {
    hide Ops, ResponseKey, DeltaIs, ChatDelta;
    ResponsesArgumentsAppend(p, s, str);
    ResponseKeyIs(p, x, str);
  }

  /** The payload is an argument delta of item `x` and nothing else, or says nothing. */
  ghost predicate OnlyItem(p: Json, x: string, fragment: Option<string>, str: Json -> string) {
    ChatDelta(p).None? && if fragment.Some? then IsArgumentsDelta(p, fragment.value) && DeltaIs(p, x, str) else Quiet(p)
  }

  lemma OnlyItemBrings(p: Json, x: string, fragment: Option<string>, str: Json -> string)
    requires OnlyItem(p, x, fragment, str)
    ensures ItemFragment(p, x, fragment, str) && Only(Ops(p, str), "response:" + x)
  {
    hide Ops, Only, DeltaIs;
    if fragment.Some? { DeltaOnly(p, fragment.value, x, str); } else { QuietOps(p, str); NothingIsOnly("response:" + x); }
  }

  lemma NothingIsOnly(key: string)
    ensures Only([], key)
  {
  }

  /** A stream that holds an item event, then argument deltas of that item, and otherwise payloads that
    * say nothing, is answered with exactly one call. */
  lemma OneItemOneCall(lines: seq<string>, decode: string -> Option<Json>, before: seq<Json>, p: Json, item: Json, rest: seq<Json>,
                       x: string, fragments: seq<Option<string>>, str: Json -> string)
    requires Payloads(lines, decode) == before + [p] + rest
    requires IsItem(p, item) && ItemIs(p, item, x, str) && ChatDelta(p).None?
    requires forall i | 0 <= i < |before| :: Quiet(before[i])
    requires |rest| == |fragments| && forall i | 0 <= i < |rest| :: OnlyItem(rest[i], x, fragments[i], str)
    ensures WithItem(NEW_CALL, item).kind == "function"
    ensures var c := WithItem(NEW_CALL, item);
      StreamAnswer(lines, decode, str) == Some(Assistant(None, [c.(arguments := Continued(c.arguments, fragments))]))
  {
    hide Ops, Fold, AllOps, Continued, WithItem, IsItem, ItemIs, OnlyItem, ItemFragment, ChatDelta, Quiet, Payloads, StreamAnswer, Only;
    NewCallsAreFunctions(item);
    var key, ps := "response:" + x, before + [p] + rest;
    forall i | 0 <= i < |rest| ensures ItemFragment(rest[i], x, fragments[i], str) && Only(Ops(rest[i], str), key) {
      OnlyItemBrings(rest[i], x, fragments[i], str);
    }
    QuietBefore(before, key, str);
    ItemOnly(p, item, x, str);
    ItemThenFragments(before, p, item, rest, x, fragments, str);
    OnlyCallAnswers(lines, decode, ps, key, str);
  }

  lemma NewCallsAreFunctions(v: Json)
    ensures WithItem(NEW_CALL, v).kind == "function" && WithBlockStart(NEW_CALL, v).kind == "function"
  {
  }

  lemma QuietBefore(before: seq<Json>, key: string, str: Json -> string)
    requires forall i | 0 <= i < |before| :: Quiet(before[i])
    ensures forall i | 0 <= i < |before| :: Only(Ops(before[i], str), key)
    ensures CallOf(Fold(EMPTY, AllOps(before, str)), key) == NEW_CALL
  {
    hide Ops, Fold, AllOps, Quiet;
    forall i | 0 <= i < |before| ensures Only(Ops(before[i], str), key) { QuietOps(before[i], str); }
    QuietFold(before, str);
  }

  lemma {:induction false} QuietFold(ps: seq<Json>, str: Json -> string)
    requires forall i | 0 <= i < |ps| :: Quiet(ps[i])
    ensures Fold(EMPTY, AllOps(ps, str)) == EMPTY
  {
    hide Ops, Quiet;
    if ps != [] {
      QuietOps(ps[0], str);
      QuietFold(ps[1..], str);
      assert [] + AllOps(ps[1..], str) == AllOps(ps[1..], str);
    }
  }

  // ----- a tool-use block of the Messages API ---------------------------------------------------------------------

  predicate IsBlock(p: Json, block: Json) {
    StringAt(p, "type") == Some("content_block_start") && RecordAt(p, "content_block") == Some(block) && StringAt(block, "type") == Some("tool_use")
  }

  predicate IsJsonDelta(p: Json, s: string) {
    var delta := RecordAt(p, "delta");
    && StringAt(p, "type") == Some("content_block_delta") && delta.Some?
    && StringAt(delta.value, "type") == Some("input_json_delta") && StringAt(delta.value, "partial_json") == Some(s)
  }

  /** The payload speaks of the block with this index, written out. */
  ghost predicate BlockIs(p: Json, x: string, str: Json -> string) {
    exists i :: IndexIs(p, "index", i) && str(i) == x
  }

  /** The payload is an input-json delta of block `x` with this fragment, or has nothing to do with the
    * tool call of block `x`. */
  ghost predicate BlockFragment(p: Json, x: string, fragment: Option<string>, str: Json -> string) {
    if fragment.Some? then IsJsonDelta(p, fragment.value) && BlockIs(p, x, str)
    else ((exists block :: IsBlock(p, block)) || (exists s :: IsJsonDelta(p, s))) ==> !BlockIs(p, x, str)
  }

  lemma BlockKeyIs(p: Json, x: string, str: Json -> string)
    ensures BlockKey(p, str) == "anthropic:" + x <==> BlockIs(p, x, str)
  {
    hide IndexText, IndexIs;
    IndexReads(p, "index", str, x);
    SamePrefix("anthropic:", IndexText(p, "index", str), x);
  }

  /** What the start of a tool-use block makes of its call. */
  function WithBlockStart(c: CallValue, block: Json): CallValue {
    var input := At(block, "input");
    CallValue(Or(StringAt(block, "id"), c.id), c.kind, Or(StringAt(block, "name"), c.name),
              if input.Some? && !input.value.Null? then input else c.arguments)
  }

  lemma BlockDeltaEdits(p: Json, x: string, str: Json -> string)
    ensures forall s | IsJsonDelta(p, s) && BlockIs(p, x, str) :: EditsOf(BlockDeltaOps(p, str), "anthropic:" + x) == [AppendArguments(s)]
    ensures (forall s :: !IsJsonDelta(p, s)) || !BlockIs(p, x, str) ==> EditsOf(BlockDeltaOps(p, str), "anthropic:" + x) == []
  {
    hide EditIf, BlockKey, BlockIs, StringAt, RecordAt, EditsOf;
    var key := "anthropic:" + x;
    BlockKeyIs(p, x, str);
    EditsOfNothing(key);
    var delta := RecordAt(p, "delta").GetOr(Null);
    var text, json := TextIf(StringAt(delta, "text")), StringAt(delta, "partial_json");
    LetteredEdits(text, 'o', key);
    EditsConcat(text, EditIf(BlockKey(p, str), ArgumentsPart, json), key);
    EditsConcat(text, [], key);
    EditIfEdits(key, ArgumentsPart, json);
    if BlockKey(p, str) != key {
      EditIfOff(BlockKey(p, str), ArgumentsPart, json, key);
      OffEdits(EditIf(BlockKey(p, str), ArgumentsPart, json), key);
    }
    if json.Some? { assert StringAt(delta, "type") == Some("input_json_delta") && BlockDeltaOps(p, str) != [] ==> IsJsonDelta(p, json.value); }
  }

  lemma BlockStartEdits(p: Json, x: string, str: Json -> string)
    ensures (forall block :: !IsBlock(p, block)) || !BlockIs(p, x, str) ==> EditsOf(BlockStartOps(p, str), "anthropic:" + x) == []
  {
    hide EditIf, BlockKey, BlockIs, StringAt, RecordAt, At, EditsOf;
    var key, block := "anthropic:" + x, RecordAt(p, "content_block").GetOr(Null);
    BlockKeyIs(p, x, str);
    EditsOfNothing(key);
    if IsBlock(p, block) && !BlockIs(p, x, str) {
      EditIfOff(BlockKey(p, str), Id, StringAt(block, "id"), key);
      EditIfOff(BlockKey(p, str), Name, StringAt(block, "name"), key);
      OffEdits(BlockStartOps(p, str), key);
    }
  }

  lemma BlockFragmentBrings(p: Json, x: string, fragment: Option<string>, str: Json -> string)
    requires BlockFragment(p, x, fragment, str)
    ensures Brings(p, "anthropic:" + x, fragment, str)
  {
    hide EditsOf, BlockStartOps, BlockDeltaOps, BlockIs;
    PayloadEdits(p, "anthropic:" + x, str);
    BlockStartEdits(p, x, str);
    BlockDeltaEdits(p, x, str);
  }

  lemma BlockOpens(p: Json, block: Json, x: string, c: CallValue, str: Json -> string)
    requires IsBlock(p, block) && BlockIs(p, x, str)
    ensures var edits := EditsOf(Ops(p, str), "anthropic:" + x); edits != [] && EditAll(c, edits) == WithBlockStart(c, block)
  {
    hide Ops, EditsOf, EditIf, EditAll, BlockKey, BlockIs, Maybe, StringAt, RecordAt, At;
    var key, id, name, input := "anthropic:" + x, StringAt(block, "id"), StringAt(block, "name"), At(block, "input");
    BlockKeyIs(p, x, str);
    PayloadEdits(p, key, str);
    assert BlockDeltaOps(p, str) == [];
    EditsOfNothing(key);
    assert EditsOf(BlockStartOps(p, str), key) + [] == EditsOf(BlockStartOps(p, str), key);
    EditIfEdits(key, Id, id);
    EditIfEdits(key, Name, name);
    WholeEdits(key, input);
    OpeningEdits(c, key, EditIf(key, Id, id), EditIf(key, Name, name), WholeOps(key, input), Maybe(Id, id), Maybe(Name, name), Whole(input));
    EditMaybe(c, Id, id);
    var c1 := EditAll(c, Maybe(Id, id));
    EditMaybe(c1, Name, name);
    WholeInput(EditAll(c1, Maybe(Name, name)), input);
  }

  /** The input of a block, when it has one. */
  function Whole(input: Option<Json>): seq<Edit> {
    if input.Some? && !input.value.Null? then [SetArguments(input.value)] else []
  }

  function WholeOps(key: string, input: Option<Json>): seq<Op> {
    if input.Some? && !input.value.Null? then [On(key, SetArguments(input.value))] else []
  }

  lemma WholeEdits(key: string, input: Option<Json>)
    ensures EditsOf(WholeOps(key, input), key) == Whole(input)
  {
    if input.Some? {
      var op := On(key, SetArguments(input.value));
      assert [op][..0] == [] && EditsOf([], key) == [];
      assert EditsOf([op], key) == [] + [op.edit];
    }
  }

  lemma WholeInput(c: CallValue, input: Option<Json>)
    ensures EditAll(c, Whole(input)) == if input.Some? && !input.value.Null? then c.(arguments := input) else c
  {
    if input.Some? {
      EditsSnoc(c, [], SetArguments(input.value));
      assert [] + [SetArguments(input.value)] == [SetArguments(input.value)];
    }
  }

  /** The start of a tool-use block and then its input-json deltas, whatever else stands before and
    * between: its call has the block's id and name, and the fragments in order, after the block's input
    * if that is text and in its place if it is not. */
  lemma BlockThenFragments(before: seq<Json>, p: Json, block: Json, rest: seq<Json>, x: string, fragments: seq<Option<string>>, str: Json -> string)
    requires IsBlock(p, block) && BlockIs(p, x, str)
    requires |rest| == |fragments| && forall i | 0 <= i < |rest| :: BlockFragment(rest[i], x, fragments[i], str)
    ensures var m, key := Fold(EMPTY, AllOps(before + [p] + rest, str)), "anthropic:" + x;
      var c := WithBlockStart(CallOf(Fold(EMPTY, AllOps(before, str)), key), block);
      key in m.calls && m.calls[key] == c.(arguments := Continued(c.arguments, fragments))
  {
    hide Ops, Fold, AllOps, EditAll, Continued, BlockFragment, WithBlockStart, IsBlock, BlockIs, Brings;
    var key := "anthropic:" + x;
    BlockOpens(p, block, x, CallOf(Fold(EMPTY, AllOps(before, str)), key), str);
    forall i | 0 <= i < |rest| ensures Brings(rest[i], key, fragments[i], str) { BlockFragmentBrings(rest[i], x, fragments[i], str); }
    EditsThenFragments(before, p, EditsOf(Ops(p, str), key), rest, key, fragments, str);
  }

  lemma BlockOnly(p: Json, block: Json, x: string, str: Json -> string)
    requires IsBlock(p, block) && BlockIs(p, x, str) && ChatDelta(p).None?
    ensures Only(Ops(p, str), "anthropic:" + x)
  {
    hide ChoiceOps, OutputTextOps, OutputItemOps, ArgumentsDeltaOps, BlockDeltaOps, BlockKey, BlockIs, ChatDelta;
    OthersAreQuiet(p, str);
    BlockKeyIs(p, x, str);
  }

  /** The payload is an input-json delta of block `x` and nothing else, or says nothing. */
  ghost predicate OnlyBlock(p: Json, x: string, fragment: Option<string>, str: Json -> string) {
    && ChatDelta(p).None?
    && if fragment.Some? then IsJsonDelta(p, fragment.value) && BlockIs(p, x, str) && StringAt(RecordAt(p, "delta").value, "text").None?
       else Quiet(p)
  }

  lemma OnlyBlockBrings(p: Json, x: string, fragment: Option<string>, str: Json -> string)
    requires OnlyBlock(p, x, fragment, str)
    ensures BlockFragment(p, x, fragment, str) && Only(Ops(p, str), "anthropic:" + x)
  {
    hide Ops, BlockIs, BlockKey;
    BlockKeyIs(p, x, str);
    if fragment.Some? {
      AnthropicArgumentsAppend(p, RecordAt(p, "delta").value, fragment.value, str);
    } else {
      QuietOps(p, str);
    }
  }

  /** A stream that holds the start of a tool-use block, then input-json deltas of its index, and
    * otherwise payloads that say nothing, is answered with exactly one call. */
  lemma OneBlockOneCall(lines: seq<string>, decode: string -> Option<Json>, before: seq<Json>, p: Json, block: Json, rest: seq<Json>,
                        x: string, fragments: seq<Option<string>>, str: Json -> string)
    requires Payloads(lines, decode) == before + [p] + rest
    requires IsBlock(p, block) && BlockIs(p, x, str) && ChatDelta(p).None?
    requires forall i | 0 <= i < |before| :: Quiet(before[i])
    requires |rest| == |fragments| && forall i | 0 <= i < |rest| :: OnlyBlock(rest[i], x, fragments[i], str)
    ensures WithBlockStart(NEW_CALL, block).kind == "function"
    ensures var c := WithBlockStart(NEW_CALL, block);
      StreamAnswer(lines, decode, str) == Some(Assistant(None, [c.(arguments := Continued(c.arguments, fragments))]))
  {
    hide Ops, Fold, AllOps, Continued, WithBlockStart, IsBlock, BlockIs, OnlyBlock, BlockFragment, ChatDelta, Quiet, Payloads, StreamAnswer, Only;
    NewCallsAreFunctions(block);
    var key, ps := "anthropic:" + x, before + [p] + rest;
    forall i | 0 <= i < |rest| ensures BlockFragment(rest[i], x, fragments[i], str) && Only(Ops(rest[i], str), key) {
      OnlyBlockBrings(rest[i], x, fragments[i], str);
    }
    QuietBefore(before, key, str);
    BlockOnly(p, block, x, str);
    BlockThenFragments(before, p, block, rest, x, fragments, str);
    OnlyCallAnswers(lines, decode, ps, key, str);
  }

  // ----- a chat-completions tool call ----------------------------------------------------------------------------

  /** The entries of the payload's tool-call delta. */
  function Entries(p: Json): seq<Json> {
    var delta := ChatDelta(p);
    if delta.Some? then ItemsAt(delta.value, "tool_calls") else []
  }

  /** The entry goes by its numeric index, or by 0. */
  predicate EntryIs(entry: Json, x: string, str: Json -> string) {
    var i := At(entry, "index");
    entry.Obj? && (if i.Some? && i.value.Num? then str(i.value) == x else str(Num(0.0)) == x)
  }

  /** Entry `n`, and no other entry of the payload, is of call `x`. */
  predicate OneEntry(p: Json, n: nat, x: string, str: Json -> string) {
    && n < |Entries(p)| && EntryIs(Entries(p)[n], x, str)
    && forall j | 0 <= j < |Entries(p)| && j != n :: !EntryIs(Entries(p)[j], x, str)
  }

  /** What an entry makes of its call: the id and the type are replaced, name and arguments appended. */
  function WithEntry(c: CallValue, entry: Json): CallValue {
    var fn := FunctionOf(entry);
    var kind, name, arguments := StringAt(entry, "type"), StringAt(fn, "name"), StringAt(fn, "arguments");
    CallValue(Or(StringAt(entry, "id"), c.id), kind.GetOr(c.kind),
              if name.Some? then Some(c.name.GetOr("") + name.value) else c.name,
              if arguments.Some? then Some(Str(TextOf(c.arguments) + arguments.value)) else c.arguments)
  }

  lemma ChatKeyIs(entry: Json, x: string, str: Json -> string)
    requires entry.Obj?
    ensures ChatKey(entry, str) == "chat:" + x <==> EntryIs(entry, x, str)
  {
    var i := At(entry, "index");
    SamePrefix("chat:", str(if i.Some? && i.value.Num? then i.value else Num(0.0)), x);
  }

  lemma OtherEntry(entry: Json, x: string, str: Json -> string)
    requires !EntryIs(entry, x, str)
    ensures EditsOf(ChatCallOps(entry, str), "chat:" + x) == []
  {
    hide EditIf, EntryIs, ChatKey, StringAt, RecordAt;
    var key := "chat:" + x;
    EditsOfNothing(key);
    if entry.Obj? {
      ChatKeyIs(entry, x, str);
      var k, fn := ChatKey(entry, str), FunctionOf(entry);
      EditIfOff(k, Id, StringAt(entry, "id"), key);
      EditIfOff(k, Kind, StringAt(entry, "type"), key);
      EditIfOff(k, NamePart, StringAt(fn, "name"), key);
      EditIfOff(k, ArgumentsPart, StringAt(fn, "arguments"), key);
      OffEdits(ChatCallOps(entry, str), key);
    }
  }

  /** The edits of an entry, in order. */
  function EditsFor(entry: Json): seq<Edit> {
    var fn := FunctionOf(entry);
    [Touch] + Maybe(Id, StringAt(entry, "id")) + Maybe(Kind, StringAt(entry, "type")) + Maybe(NamePart, StringAt(fn, "name"))
    + Maybe(ArgumentsPart, StringAt(fn, "arguments"))
  }

  lemma EntryOps(entry: Json, x: string, str: Json -> string)
    requires EntryIs(entry, x, str)
    ensures EditsOf(ChatCallOps(entry, str), "chat:" + x) == EditsFor(entry)
  {
    ChatKeyIs(entry, x, str);
    hide EditsOf, EditIf, EntryIs, ChatKey, Maybe, StringAt, RecordAt;
    var key, fn := "chat:" + x, FunctionOf(entry);
    var id, kind, name, arguments := StringAt(entry, "id"), StringAt(entry, "type"), StringAt(fn, "name"), StringAt(fn, "arguments");
    EditIfEdits(key, Id, id);
    EditIfEdits(key, Kind, kind);
    EditIfEdits(key, NamePart, name);
    EditIfEdits(key, ArgumentsPart, arguments);
    TouchEdits(key);
    EditsOfFour([On(key, Touch)], EditIf(key, Id, id), EditIf(key, Kind, kind), EditIf(key, NamePart, name), key);
    EditsConcat([On(key, Touch)] + EditIf(key, Id, id) + EditIf(key, Kind, kind) + EditIf(key, NamePart, name),
                EditIf(key, ArgumentsPart, arguments), key);
  }

  lemma EntryEdits(c: CallValue, entry: Json)
    ensures EditsFor(entry) != [] && EditAll(c, EditsFor(entry)) == WithEntry(c, entry)
  {
    hide EditAll, FunctionOf, Maybe, StringAt;
    var fn := FunctionOf(entry);
    var id, kind, name, arguments := StringAt(entry, "id"), StringAt(entry, "type"), StringAt(fn, "name"), StringAt(fn, "arguments");
    EditAllConcat(c, [Touch] + Maybe(Id, id) + Maybe(Kind, kind) + Maybe(NamePart, name), Maybe(ArgumentsPart, arguments));
    EditAllConcat(c, [Touch] + Maybe(Id, id) + Maybe(Kind, kind), Maybe(NamePart, name));
    EditAllConcat(c, [Touch] + Maybe(Id, id), Maybe(Kind, kind));
    EditAllConcat(c, [Touch], Maybe(Id, id));
    TouchAll(c);
    EditMaybe(c, Id, id);
    var c1 := EditAll(c, Maybe(Id, id));
    EditMaybe(c1, Kind, kind);
    var c2 := EditAll(c1, Maybe(Kind, kind));
    EditMaybe(c2, NamePart, name);
    EditMaybe(EditAll(c2, Maybe(NamePart, name)), ArgumentsPart, arguments);
  }

  lemma {:induction false} OtherEntries(entries: seq<Json>, x: string, str: Json -> string)
    requires forall j | 0 <= j < |entries| :: !EntryIs(entries[j], x, str)
    ensures EditsOf(ChatCallsOps(entries, str), "chat:" + x) == []
  {
    hide EditsOf, EntryIs, ChatCallOps;
    EditsOfNothing("chat:" + x);
    if entries != [] {
      OtherEntry(entries[0], x, str);
      OtherEntries(entries[1..], x, str);
      EditsConcat(ChatCallOps(entries[0], str), ChatCallsOps(entries[1..], str), "chat:" + x);
    }
  }

  lemma {:induction false} EntriesEdits(entries: seq<Json>, n: nat, x: string, str: Json -> string)
    requires n < |entries| && forall j | 0 <= j < |entries| && j != n :: !EntryIs(entries[j], x, str)
    ensures EditsOf(ChatCallsOps(entries, str), "chat:" + x) == EditsOf(ChatCallOps(entries[n], str), "chat:" + x)
  {
    hide EditsOf, EntryIs, ChatCallOps;
    var key := "chat:" + x;
    EditsConcat(ChatCallOps(entries[0], str), ChatCallsOps(entries[1..], str), key);
    if n == 0 {
      OtherEntries(entries[1..], x, str);
    } else {
      OtherEntry(entries[0], x, str);
      EntriesEdits(entries[1..], n - 1, x, str);
    }
  }

  lemma ChoiceEdits(p: Json, x: string, str: Json -> string)
    ensures EditsOf(Ops(p, str), "chat:" + x) == EditsOf(ChatCallsOps(Entries(p), str), "chat:" + x)
  {
    hide Ops, EditsOf, ChatCallsOps, ChatDelta;
    var key, delta := "chat:" + x, ChatDelta(p);
    PayloadEdits(p, key, str);
    if delta.Some? {
      var text := TextIf(StringAt(delta.value, "content"));
      EditsConcat(text, ChatCallsOps(Entries(p), str), key);
      LetteredEdits(text, 'o', key);
    } else {
      NoEntries(str);
    }
  }

  lemma NoEntries(str: Json -> string)
    ensures ChatCallsOps([], str) == []
  {
  }

  /** The payload's one entry of call `x` continues it with this argument fragment, or it has no entry of
    * that call. */
  ghost predicate EntryFragment(p: Json, x: string, fragment: Option<string>, str: Json -> string) {
    if fragment.Some? then exists n: nat :: OneEntry(p, n, x, str) && JustArguments(Entries(p)[n], fragment.value)
    else forall j | 0 <= j < |Entries(p)| :: !EntryIs(Entries(p)[j], x, str)
  }

  predicate JustArguments(entry: Json, s: string) {
    Continues(entry) && StringAt(FunctionOf(entry), "name").None? && StringAt(FunctionOf(entry), "arguments") == Some(s)
  }

  lemma EntryFragmentBrings(p: Json, x: string, fragment: Option<string>, str: Json -> string)
    requires EntryFragment(p, x, fragment, str)
    ensures Brings(p, "chat:" + x, fragment, str)
  {
    hide Ops, EditsOf, EntryIs, JustArguments;
    ChoiceEdits(p, x, str);
    if fragment.Some? {
      var n: nat :| OneEntry(p, n, x, str) && JustArguments(Entries(p)[n], fragment.value);
      EntriesEdits(Entries(p), n, x, str);
      JustArgumentsEdits(Entries(p)[n], x, fragment.value, str);
    } else {
      OtherEntries(Entries(p), x, str);
    }
  }

  lemma JustArgumentsEdits(entry: Json, x: string, s: string, str: Json -> string)
    requires EntryIs(entry, x, str) && JustArguments(entry, s)
    ensures EditsOf(ChatCallOps(entry, str), "chat:" + x) == [Touch, AppendArguments(s)]
  {
    hide ChatKey, EntryIs, EditsOf;
    var key := "chat:" + x;
    ChatKeyIs(entry, x, str);
    assert ChatCallOps(entry, str) == [On(key, Touch)] + EditIf(key, ArgumentsPart, Some(s));
    EditsConcat([On(key, Touch)], EditIf(key, ArgumentsPart, Some(s)), key);
    TouchEdits(key);
    EditIfEdits(key, ArgumentsPart, Some(s));
  }

  /** An entry that opens a chat-completions tool call and then the entries that continue it, whatever
    * else stands before, between and beside them: its call has the id, the type and the name given, and
    * the opening arguments followed by every later fragment. */
  lemma EntryThenFragments(before: seq<Json>, p: Json, n: nat, rest: seq<Json>, x: string, fragments: seq<Option<string>>, str: Json -> string)
    requires OneEntry(p, n, x, str)
    requires |rest| == |fragments| && forall i | 0 <= i < |rest| :: EntryFragment(rest[i], x, fragments[i], str)
    ensures var m, key := Fold(EMPTY, AllOps(before + [p] + rest, str)), "chat:" + x;
      var c := WithEntry(CallOf(Fold(EMPTY, AllOps(before, str)), key), Entries(p)[n]);
      key in m.calls && m.calls[key] == c.(arguments := Continued(c.arguments, fragments))
  {
    var key := "chat:" + x;
    hide Ops, Fold, AllOps, EditAll, Continued, EntryFragment, WithEntry, EntryIs, Brings, Entries, EditsFor;
    ChoiceEdits(p, x, str);
    EntriesEdits(Entries(p), n, x, str);
    EntryOps(Entries(p)[n], x, str);
    EntryEdits(CallOf(Fold(EMPTY, AllOps(before, str)), key), Entries(p)[n]);
    forall i | 0 <= i < |rest| ensures Brings(rest[i], key, fragments[i], str) { EntryFragmentBrings(rest[i], x, fragments[i], str); }
    EditsThenFragments(before, p, EditsOf(Ops(p, str), key), rest, key, fragments, str);
  }

  /** The payload holds this one entry and nothing else that is read. */
  predicate IsEntry(p: Json, entry: Json) {
    Untyped(p) && ChatDelta(p).Some? && StringAt(ChatDelta(p).value, "content").None? && Entries(p) == [entry]
  }

  lemma EntryAlone(p: Json, entry: Json, x: string, str: Json -> string)
    requires IsEntry(p, entry) && EntryIs(entry, x, str)
    ensures OneEntry(p, 0, x, str) && Entries(p)[0] == entry
  {
    hide Entries, EntryIs, Untyped, ChatDelta, StringAt;
  }

  lemma EditIfOnly(key: string, field: Field, s: Option<string>)
    ensures Only(EditIf(key, field, s), key) && Only([On(key, Touch)], key)
  {
  }

  lemma OnlyConcat(a: seq<Op>, b: seq<Op>, key: string)
    requires Only(a, key) && Only(b, key)
    ensures Only(a + b, key)
  {
  }

  lemma EntryOnly(p: Json, entry: Json, x: string, str: Json -> string)
    requires IsEntry(p, entry) && EntryIs(entry, x, str)
    ensures Only(Ops(p, str), "chat:" + x)
  {
    OneChatCall(p, entry, str);
    ChatKeyIs(entry, x, str);
    hide Ops, Only, EditIf, ChatKey, EntryIs, StringAt, RecordAt, Untyped, ChatDelta, Entries, IsEntry;
    var key, fn := "chat:" + x, FunctionOf(entry);
    var a, b := EditIf(key, Id, StringAt(entry, "id")), EditIf(key, Kind, StringAt(entry, "type"));
    var c, d := EditIf(key, NamePart, StringAt(fn, "name")), EditIf(key, ArgumentsPart, StringAt(fn, "arguments"));
    EditIfOnly(key, Id, StringAt(entry, "id"));
    EditIfOnly(key, Kind, StringAt(entry, "type"));
    EditIfOnly(key, NamePart, StringAt(fn, "name"));
    EditIfOnly(key, ArgumentsPart, StringAt(fn, "arguments"));
    OnlyConcat([On(key, Touch)], a, key);
    OnlyConcat([On(key, Touch)] + a, b, key);
    OnlyConcat([On(key, Touch)] + a + b, c, key);
    OnlyConcat([On(key, Touch)] + a + b + c, d, key);
  }

  /** The payload continues call `x` with this argument fragment and nothing else, or says nothing. */
  ghost predicate OnlyEntry(p: Json, x: string, fragment: Option<string>, str: Json -> string) {
    if fragment.Some? then exists entry :: IsEntry(p, entry) && EntryIs(entry, x, str) && JustArguments(entry, fragment.value)
    else Quiet(p)
  }

  lemma OnlyEntryBrings(p: Json, x: string, fragment: Option<string>, str: Json -> string)
    requires OnlyEntry(p, x, fragment, str)
    ensures EntryFragment(p, x, fragment, str) && Only(Ops(p, str), "chat:" + x)
  {
    hide Ops, EntryIs, JustArguments, Only, Untyped;
    if fragment.Some? {
      var entry :| IsEntry(p, entry) && EntryIs(entry, x, str) && JustArguments(entry, fragment.value);
      EntryOnly(p, entry, x, str);
      EntryAlone(p, entry, x, str);
    } else {
      QuietOps(p, str);
      NothingIsOnly("chat:" + x);
    }
  }

  /** A stream that holds an entry that opens a tool call, then entries that continue it, and otherwise
    * payloads that say nothing, is answered with exactly one call. */
  lemma OneEntryOneCall(lines: seq<string>, decode: string -> Option<Json>, before: seq<Json>, p: Json, entry: Json, rest: seq<Json>,
                        x: string, fragments: seq<Option<string>>, str: Json -> string)
    requires Payloads(lines, decode) == before + [p] + rest
    requires IsEntry(p, entry) && EntryIs(entry, x, str)
    requires forall i | 0 <= i < |before| :: Quiet(before[i])
    requires |rest| == |fragments| && forall i | 0 <= i < |rest| :: OnlyEntry(rest[i], x, fragments[i], str)
    ensures var c := WithEntry(NEW_CALL, entry);
      StreamAnswer(lines, decode, str) == Some(Assistant(None, [c.(arguments := Continued(c.arguments, fragments))]))
  {
    hide Ops, Fold, AllOps, Continued, WithEntry, IsEntry, EntryIs, OneEntry, OnlyEntry, EntryFragment, Entries, ChatDelta, Quiet, Payloads;
    hide StreamAnswer, Only, Untyped, StringAt, ItemsAt;
    EntryAlone(p, entry, x, str);
    var key, ps := "chat:" + x, before + [p] + rest;
    forall i | 0 <= i < |rest| ensures EntryFragment(rest[i], x, fragments[i], str) && Only(Ops(rest[i], str), key) {
      OnlyEntryBrings(rest[i], x, fragments[i], str);
    }
    QuietBefore(before, key, str);
    EntryOnly(p, entry, x, str);
    EntryThenFragments(before, p, 0, rest, x, fragments, str);
    OnlyCallAnswers(lines, decode, ps, key, str);
  }

  // ----- which lines count, and text ---------------------------------------------------------------------------------

  /** A line counts exactly when it starts with "data:" and what follows decodes; any other line may be
    * inserted or left out anywhere. */
  lemma OtherLinesAreInvisible(before: seq<string>, line: string, after: seq<string>, decode: string -> Option<Json>, str: Json -> string)
    requires forall data | line == "data:" + data :: decode(data).None?
    ensures StreamAnswer(before + [line] + after, decode, str) == StreamAnswer(before + after, decode, str)
  {
    hide Fold, AllOps, Payloads;
    if "data:" <= line { assert line == "data:" + line[5..]; }
    PayloadsConcat(before + [line], after, decode);
    PayloadsConcat(before, [line], decode);
    PayloadsConcat(before, after, decode);
    OneLine(line, decode);
    assert Payloads(before, decode) + [] == Payloads(before, decode);
  }

  lemma {:induction false} DataLinesDecode(datas: seq<string>, decode: string -> Option<Json>)
    requires forall i | 0 <= i < |datas| :: decode(datas[i]).Some?
    ensures Payloads(seq(|datas|, i requires 0 <= i < |datas| => "data:" + datas[i]), decode) ==
            seq(|datas|, i requires 0 <= i < |datas| => decode(datas[i]).value)
  {
    if datas != [] {
      var lines := seq(|datas|, i requires 0 <= i < |datas| => "data:" + datas[i]);
      DataLinesDecode(datas[1..], decode);
      assert lines[1..] == seq(|datas[1..]|, i requires 0 <= i < |datas[1..]| => "data:" + datas[1..][i]);
      assert lines[0][|DATA|..] == datas[0];
    }
  }

  /** The payload is one append to the text, or says nothing. */
  predicate OnlyText(p: Json, fragment: Option<string>, str: Json -> string) {
    if fragment.Some? then Asks(p, Text(fragment.value), str) else Quiet(p)
  }

  lemma {:induction false} TextFolds(m: Message, ps: seq<Json>, fragments: seq<Option<string>>, str: Json -> string)
    requires |ps| == |fragments| && forall i | 0 <= i < |ps| :: OnlyText(ps[i], fragments[i], str)
    ensures Fold(m, AllOps(ps, str)) == m.(text := m.text + Spell(fragments))
    decreases |ps|
  {
    hide Ops;
    if ps == [] {
      assert m.text + "" == m.text;
    } else {
      hide Quiet, Fold;
      var f := fragments[0];
      FoldAppend(m, Ops(ps[0], str), AllOps(ps[1..], str));
      assert OnlyText(ps[0], f, str);
      if f.Some? { PerformedStep(m, Ops(ps[0], str), Text(f.value)); } else { QuietOps(ps[0], str); FoldNothing(m); }
      var n := m.(text := m.text + f.GetOr(""));
      assert Fold(m, Ops(ps[0], str)) == n by { assert m.text + "" == m.text; }
      TextFolds(n, ps[1..], fragments[1..], str);
      assert m.text + (f.GetOr("") + Spell(fragments[1..])) == (m.text + f.GetOr("")) + Spell(fragments[1..]);
    }
  }

  lemma FoldNothing(m: Message)
    ensures Fold(m, []) == m
  {
  }

  /** A stream of text deltas is answered with their concatenation and no calls, or not at all when that
    * is empty. */
  lemma TextOnlyAnswers(lines: seq<string>, decode: string -> Option<Json>, ps: seq<Json>, fragments: seq<Option<string>>, str: Json -> string)
    requires Payloads(lines, decode) == ps
    requires |ps| == |fragments| && forall i | 0 <= i < |ps| :: OnlyText(ps[i], fragments[i], str)
    ensures StreamAnswer(lines, decode, str) ==
      if Spell(fragments) == "" then None else Some(Assistant(Some(Spell(fragments)), []))
  {
    hide Fold, AllOps, Payloads, OnlyText;
    TextFolds(EMPTY, ps, fragments, str);
    assert "" + Spell(fragments) == Spell(fragments);
    assert ListedCalls(EMPTY.(text := Spell(fragments))) == [];
  }

  /** Any stream is answered with its whole text, if it has any, and with all its calls in first-seen
    * order, and is left unanswered only when it has neither. */
  lemma AnswerExactly(lines: seq<string>, decode: string -> Option<Json>, str: Json -> string)
    ensures var m, answer := Fold(EMPTY, AllOps(Payloads(lines, decode), str)), StreamAnswer(lines, decode, str);
      && (answer.None? <==> m.text == "" && m.order == [])
      && (answer.Some? ==>
            && (answer.value.content.None? <==> m.text == "") && (m.text != "" ==> answer.value.content == Some(m.text))
            && |answer.value.toolCalls| == |m.order|
            && forall i | 0 <= i < |m.order| :: m.order[i] in m.calls && answer.value.toolCalls[i] == m.calls[m.order[i]])
  {
    hide Fold, AllOps, Payloads;
    StreamIsComplete(AllOps(Payloads(lines, decode), str));
  }
}
