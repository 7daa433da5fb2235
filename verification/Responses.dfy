/** The OpenAI Responses stream: typed events over indexed output items, with text and argument deltas
    that refer to an item by its index. */
module Responses {
  import opened Lists
  import opened Options
  import opened Json
  import opened Canon
  import opened Records
  import opened Sse
  import opened Transcript
  import opened Envelopes
  import opened ToolTables

  // ---------------------------------------------------------------- decoding

  /** The fields every event is decoded into. */
  datatype Msg = Msg(typ: string, delta: string, index: int, itemType: string, itemName: string, status: string)

  function ReadMsg(f: List<Field>): Option<Msg> {
    var typ :- StrIn(f, "type");
    var delta :- StrIn(f, "delta");
    var index :- IntIn(f, "output_index");
    var item :- SubIn(f, "item");
    var itemType :- StrIn(item, "type");
    var itemName :- StrIn(item, "name");
    var response :- SubIn(f, "response");
    var status :- StrIn(response, "status");
    Some(Msg(typ, delta, index, itemType, itemName, status))
  }

  /** What a message does to the decoder. */
  datatype Act = AddText(text: string) | Open(index: int, name: string) | AddArgs(index: int, args: string)
               | Finish(status: string) | Skip

  function ActOf(m: Msg): Act {
    if m.typ == "response.output_text.delta" then AddText(m.delta)
    else if m.typ == "response.output_item.added" then
      if m.itemType == "function_call" then Open(m.index, m.itemName) else Skip
    else if m.typ == "response.function_call_arguments.delta" then AddArgs(m.index, m.delta)
    else if m.typ == "response.completed" then Finish(m.status)
    else Skip
  }

  function ReadAct(f: List<Field>): Act {
    var m := ReadMsg(f);
    if m.None? then Skip else ActOf(m.value)
  }

  function ReadEvent(ev: Event): Act {
    var data := TrimSpace(ev.data);
    var v := if data == "" then None else ParseDoc(data);
    var f := if v.None? then None else FieldsOf(v.value);
    if f.None? then Skip else ReadAct(f.value)
  }

  datatype State = State(text: string, table: Table, finish: string)

  const START := State("", EMPTY, "")

  /** A second item under one index replaces the first, yet is listed twice. */
  function Apply(st: State, a: Act): State {
    match a
    case AddText(s) => st.(text := st.text + s)
    case Open(i, name) =>
      st.(table := Table(st.table.tools[i := Acc(name, "")], st.table.order + [i]))
    case AddArgs(i, s) =>
      if i in st.table.tools then
        var t := st.table.tools[i];
        st.(table := st.table.(tools := st.table.tools[i := t.(args := t.args + s)]))
      else st
    case Finish(status) => if status != "" then st.(finish := status) else st
    case Skip => st
  }

  function Acts(events: seq<Event>): seq<Act> {
    if events == [] then [] else [ReadEvent(events[0])] + Acts(events[1..])
  }

  function Assemble(st: State): Turn {
    Normalize(Turn("assistant", st.text, Calls(st.table.order, st.table.tools), st.finish))
  }

  function Decode(raw: string): Turn {
    Assemble(Fold(Apply, START, Acts(Events(raw))))
  }

  lemma ActsFrom(events: seq<Event>, k: nat, st: State)
    requires k < |events|
    ensures Fold(Apply, st, Acts(events[k..])) == Fold(Apply, Apply(st, ReadEvent(events[k])), Acts(events[k + 1..]))
  {
    assert events[k..][1..] == events[k + 1..];
    assert Acts(events[k..])[1..] == Acts(events[k + 1..]);
  }

  method DecodeOpenAIResponsesSSE(raw: string) returns (t: Turn)
    ensures t == Decode(raw)
  {
    var text, finish := "", "";
    var tools: map<int, Acc>, order: seq<int> := map[], [];
    var events := ParseSSE(raw);
    var k := 0;
    while k < |events|
      invariant 0 <= k <= |events|
      invariant Fold(Apply, START, Acts(events)) == Fold(Apply, State(text, Table(tools, order), finish), Acts(events[k..]))
    {
      ActsFrom(events, k, State(text, Table(tools, order), finish));
      match ReadEvent(events[k]) {
        case AddText(s) => text := text + s;
        case Open(i, name) =>
          tools := tools[i := Acc(name, "")];
          order := order + [i];
        case AddArgs(i, s) =>
          if i in tools { tools := tools[i := tools[i].(args := tools[i].args + s)]; }
        case Finish(status) =>
          if status != "" { finish := status; }
        case Skip =>
      }
      k := k + 1;
    }
    var calls := ReadOff(Table(tools, order));
    t := Normalize(Turn("assistant", text, calls, finish));
  }

  // ---------------------------------------------------------------- encoding

  function CreatedFrame(env: Envelope): Frame {
    Frame("response.created", Obj(R2("response",
      Obj(R2("id", Str(env.MsgId("resp_0000")), "status", Str("in_progress"))), "type", Str("response.created"))))
  }

  const ADDED := "response.output_item.added"

  function TypedItem(typ: string, item: List<Field>, idx: int): Frame {
    Frame(typ, Obj(R3("item", Obj(item), "output_index", Int(idx), "type", Str(typ))))
  }

  function ItemFrame(item: List<Field>, idx: int): Frame {
    TypedItem(ADDED, item, idx)
  }

  function MessageItem(): List<Field> {
    R4("content", Arr(Nil), "id", Str("msg_0"), "role", Str("assistant"), "type", Str("message"))
  }

  function CallItem(id: string, callId: string, name: string): List<Field> {
    R5("arguments", Str(""), "call_id", Str(callId), "id", Str(id), "name", Str(name), "type", Str("function_call"))
  }

  function DeltaFrame(typ: string, delta: string, itemId: string, idx: int): Frame {
    Frame(typ, Obj(R4("delta", Str(delta), "item_id", Str(itemId), "output_index", Int(idx), "type", Str(typ))))
  }

  const TEXT := "response.output_text.delta"
  const ARGS := "response.function_call_arguments.delta"

  function UsageRecord(env: Envelope): List<Field> {
    R3("input_tokens", Int(env.inputTokens), "output_tokens", Int(env.outputTokens),
       "total_tokens", Int(env.inputTokens + env.outputTokens))
  }

  /** The usage record is there only when there are tokens to report. */
  function CompletedFields(env: Envelope, finish: string): List<Field> {
    if env.inputTokens > 0 || env.outputTokens > 0 then
      R3("id", Str(env.MsgId("resp_0000")), "status", Str(finish), "usage", Obj(UsageRecord(env)))
    else R2("id", Str(env.MsgId("resp_0000")), "status", Str(finish))
  }

  function CompletedFrame(env: Envelope, finish: string): Frame {
    Frame("response.completed", Obj(R2("response", Obj(CompletedFields(env, finish)), "type", Str("response.completed"))))
  }

  function TextFrames(text: string): seq<Frame> {
    if text == "" then [] else [ItemFrame(MessageItem(), 0)] + [DeltaFrame(TEXT, text, "msg_0", 0)]
  }

  function ToolFrame(env: Envelope, i: nat, idx: int, c: ToolCall): seq<Frame> {
    [ItemFrame(CallItem(env.ToolId(i, "fc_"), "call_" + NatText(i), c.name), idx)]
    + [DeltaFrame(ARGS, CanonArgs(c.args), env.ToolId(i, "fc_"), idx)]
  }

  function ToolFrames(env: Envelope, i: nat, idx: int, calls: seq<ToolCall>): seq<Frame>
    decreases |calls|
  {
    if calls == [] then [] else ToolFrame(env, i, idx, calls[0]) + ToolFrames(env, i + 1, idx + 1, calls[1..])
  }

  function Frames(t: Turn, env: Envelope): seq<Frame> {
    [CreatedFrame(env)] + TextFrames(t.text) + ToolFrames(env, 0, if t.text == "" then 0 else 1, t.calls)
    + [CompletedFrame(env, t.finish)]
  }

  function Encode(t: Turn, env: Envelope): string {
    Render(Frames(Normalize(t), env))
  }

  method EmitTwo(b: string, ghost done: seq<Frame>, f: Frame, g: Frame) returns (r: string)
    requires b == Render(done)
    ensures r == Render(done + ([f] + [g]))
  {
    r := Emit(b, done, f);
    r := Emit(r, done + [f], g);
    Assoc(done, [f], [g]);
  }

  method EmitTools(b: string, ghost done: seq<Frame>, env: Envelope, first: int, calls: seq<ToolCall>) returns (r: string)
    requires b == Render(done)
    ensures r == Render(done + ToolFrames(env, 0, first, calls))
  {
    ghost var out := done;
    r := b;
    var idx, i := first, 0;
    assert calls[0..] == calls;
    while i < |calls|
      invariant 0 <= i <= |calls| && idx == first + i && r == Render(out)
      invariant out + ToolFrames(env, i, idx, calls[i..]) == done + ToolFrames(env, 0, first, calls)
    {
      var id := env.ToolId(i, "fc_");
      r := EmitTwo(r, out, ItemFrame(CallItem(id, "call_" + NatText(i), calls[i].name), idx),
        DeltaFrame(ARGS, CanonArgs(calls[i].args), id, idx));
      assert calls[i..][1..] == calls[i + 1..];
      Assoc(out, ToolFrame(env, i, idx, calls[i]), ToolFrames(env, i + 1, idx + 1, calls[i + 1..]));
      out := out + ToolFrame(env, i, idx, calls[i]);
      idx := idx + 1;
      i := i + 1;
    }
    assert calls[i..] == [];
    assert out + [] == out;
  }

  method EmitText(b: string, ghost done: seq<Frame>, text: string) returns (r: string, oi: int)
    requires b == Render(done)
    ensures r == Render(done + TextFrames(text)) && oi == if text == "" then 0 else 1
  {
    r, oi := b, 0;
    if text != "" {
      r := EmitTwo(r, done, ItemFrame(MessageItem(), oi), DeltaFrame(TEXT, text, "msg_0", oi));
      oi := oi + 1;
    } else {
      assert done + [] == done;
    }
  }

  method EncodeOpenAIResponsesSSE(turn: Turn, env: Envelope) returns (b: string)
    ensures b == Encode(turn, env)
  {
    var t := Normalize(turn);
    b := Emit("", [], CreatedFrame(env));
    ghost var done := [] + [CreatedFrame(env)];
    var oi;
    b, oi := EmitText(b, done, t.text);
    b := EmitTools(b, done + TextFrames(t.text), env, oi, t.calls);
    b := Emit(b, done + TextFrames(t.text) + ToolFrames(env, 0, oi, t.calls), CompletedFrame(env, t.finish));
    assert done == [CreatedFrame(env)];
  }

  // ---------------------------------------------------------------- what each frame is read as

  predicate Carries(f: Frame, a: Act) {
    Clean(f.event) && f.payload.Obj? && PrintableFields(f.payload.fields) && ReadAct(f.payload.fields) == a
  }

  lemma CarriesReads(f: Frame, a: Act)
    requires Carries(f, a)
    ensures Printable(f.payload) && ReadEvent(Event(f.event, Print(f.payload) + "\n")) == a
  {
    ObjectTrims(f.payload.fields);
    PayloadParses(f.payload);
  }

  lemma ActKinds(m: Msg)
    ensures m.typ == TEXT ==> ActOf(m) == AddText(m.delta)
    ensures m.typ == ARGS ==> ActOf(m) == AddArgs(m.index, m.delta)
    ensures m.typ == ADDED ==>
      ActOf(m) == if m.itemType == "function_call" then Open(m.index, m.itemName) else Skip
    ensures m.typ == "response.completed" ==> ActOf(m) == Finish(m.status)
    ensures m.typ == "response.created" ==> ActOf(m) == Skip
  {
    assert "response.output_text.delta"[16] != "response.output_item.added"[16];
  }

  lemma ReadAs(f: Frame, m: Msg, a: Act)
    requires Clean(f.event) && f.payload.Obj? && PrintableFields(f.payload.fields)
    requires ReadMsg(f.payload.fields) == Some(m) && ActOf(m) == a
    ensures Carries(f, a)
  {
  }

  lemma ResponseReads(resp: List<Field>, typ: string, status: string)
    requires StrIn(resp, "status") == Some(status) && PrintableFields(resp)
    ensures var f := R2("response", Obj(resp), "type", Str(typ));
      ReadMsg(f) == Some(Msg(typ, "", 0, "", "", status)) && PrintableFields(f)
  {
    assert "item"[0] != "type"[0];
    assert Lookup(Nil, "type") == None && Lookup(Nil, "name") == None;
  }

  lemma TypedItemReads(typ: string, item: List<Field>, idx: int, itemType: string, itemName: string)
    requires StrIn(item, "type") == Some(itemType) && StrIn(item, "name") == Some(itemName) && PrintableFields(item)
    ensures var f := TypedItem(typ, item, idx).payload.fields;
      ReadMsg(f) == Some(Msg(typ, "", idx, itemType, itemName, "")) && PrintableFields(f)
  {
    IntPrintable(idx);
    TypedLookups(typ, item, idx);
    IntTextValue(idx);
    assert Lookup(Nil, "status") == None;
    MsgFrom(TypedItem(typ, item, idx).payload.fields, Msg(typ, "", idx, itemType, itemName, ""), item, Nil);
  }

  lemma TypedLookups(typ: string, item: List<Field>, idx: int)
    ensures var f := TypedItem(typ, item, idx).payload.fields;
      && Lookup(f, "type") == Some(Str(typ)) && Lookup(f, "item") == Some(Obj(item))
      && Lookup(f, "output_index") == Some(Int(idx)) && Lookup(f, "delta") == None && Lookup(f, "response") == None
  {
    assert "item"[0] != "type"[0];
  }

  lemma MsgFrom(f: List<Field>, m: Msg, item: List<Field>, response: List<Field>)
    requires StrIn(f, "type") == Some(m.typ) && StrIn(f, "delta") == Some(m.delta) && IntIn(f, "output_index") == Some(m.index)
    requires SubIn(f, "item") == Some(item) && SubIn(f, "response") == Some(response)
    requires StrIn(item, "type") == Some(m.itemType) && StrIn(item, "name") == Some(m.itemName)
    requires StrIn(response, "status") == Some(m.status)
    ensures ReadMsg(f) == Some(m)
  {
  }

  lemma DeltaLookups(typ: string, delta: string, itemId: string, idx: int)
    ensures var f := DeltaFrame(typ, delta, itemId, idx).payload.fields;
      && Lookup(f, "type") == Some(Str(typ)) && Lookup(f, "delta") == Some(Str(delta))
      && Lookup(f, "output_index") == Some(Int(idx)) && Lookup(f, "item") == None && Lookup(f, "response") == None
  {
    assert "item"[0] != "type"[0];
  }

  lemma LookupsRead(f: List<Field>, typ: string, delta: string, idx: int)
    requires Lookup(f, "type") == Some(Str(typ)) && Lookup(f, "delta") == Some(Str(delta))
    requires Lookup(f, "output_index") == Some(Int(idx)) && Lookup(f, "item") == None && Lookup(f, "response") == None
    ensures StrIn(f, "type") == Some(typ) && StrIn(f, "delta") == Some(delta) && IntIn(f, "output_index") == Some(idx)
    ensures SubIn(f, "item") == Some(Nil) && SubIn(f, "response") == Some(Nil)
  {
    IntTextValue(idx);
  }

  lemma DeltaMsg(typ: string, delta: string, itemId: string, idx: int)
    ensures var f := DeltaFrame(typ, delta, itemId, idx).payload.fields;
      ReadMsg(f) == Some(Msg(typ, delta, idx, "", "", "")) && PrintableFields(f)
  {
    IntPrintable(idx);
    DeltaLookups(typ, delta, itemId, idx);
    LookupsRead(DeltaFrame(typ, delta, itemId, idx).payload.fields, typ, delta, idx);
    assert Lookup(Nil, "status") == None && Lookup(Nil, "type") == None && Lookup(Nil, "name") == None;
    MsgFrom(DeltaFrame(typ, delta, itemId, idx).payload.fields, Msg(typ, delta, idx, "", "", ""), Nil, Nil);
  }

  lemma StatusReads(id: string, status: string)
    ensures var f := R2("id", Str(id), "status", Str(status)); StrIn(f, "status") == Some(status) && PrintableFields(f)
  {
  }

  lemma CreatedCarries(env: Envelope)
    ensures Carries(CreatedFrame(env), Skip)
  {
    StatusReads(env.MsgId("resp_0000"), "in_progress");
    ResponseReads(R2("id", Str(env.MsgId("resp_0000")), "status", Str("in_progress")), "response.created", "in_progress");
    var m := Msg("response.created", "", 0, "", "", "in_progress");
    ActKinds(m);
    ReadAs(CreatedFrame(env), m, Skip);
  }

  lemma UsageRecordPrintable(env: Envelope)
    ensures PrintableFields(UsageRecord(env))
  {
    IntPrintable(env.inputTokens);
    IntPrintable(env.outputTokens);
    IntPrintable(env.inputTokens + env.outputTokens);
  }

  lemma StatusFields(id: string, finish: string, usage: Value)
    requires Printable(usage)
    ensures var f := R3("id", Str(id), "status", Str(finish), "usage", usage);
      StrIn(f, "status") == Some(finish) && PrintableFields(f)
    ensures var f := R2("id", Str(id), "status", Str(finish));
      StrIn(f, "status") == Some(finish) && PrintableFields(f)
  {
  }

  lemma StatusCarries(fields: List<Field>, finish: string)
    requires StrIn(fields, "status") == Some(finish) && PrintableFields(fields)
    ensures Carries(Frame("response.completed", Obj(R2("response", Obj(fields), "type", Str("response.completed")))),
      Finish(finish))
  {
    ResponseReads(fields, "response.completed", finish);
    var m := Msg("response.completed", "", 0, "", "", finish);
    ActKinds(m);
    ReadAs(Frame("response.completed", Obj(R2("response", Obj(fields), "type", Str("response.completed")))), m, Finish(finish));
  }

  lemma CompletedCarries(env: Envelope, finish: string)
    ensures Carries(CompletedFrame(env, finish), Finish(finish))
  {
    UsageRecordPrintable(env);
    StatusFields(env.MsgId("resp_0000"), finish, Obj(UsageRecord(env)));
    StatusCarries(CompletedFields(env, finish), finish);
  }

  lemma ItemsRead(id: string, callId: string, name: string)
    ensures StrIn(MessageItem(), "type") == Some("message") && StrIn(MessageItem(), "name") == Some("")
    ensures StrIn(CallItem(id, callId, name), "type") == Some("function_call")
    ensures StrIn(CallItem(id, callId, name), "name") == Some(name)
    ensures PrintableFields(MessageItem()) && PrintableFields(CallItem(id, callId, name))
  {
    assert "name"[0] != "type"[0] && "name"[0] != "role"[0];
  }

  lemma TypedItemCarries(typ: string, item: List<Field>, idx: int, itemType: string, itemName: string, a: Act)
    requires StrIn(item, "type") == Some(itemType) && StrIn(item, "name") == Some(itemName) && PrintableFields(item)
    requires Clean(typ) && ActOf(Msg(typ, "", idx, itemType, itemName, "")) == a
    ensures Carries(TypedItem(typ, item, idx), a)
  {
    TypedItemReads(typ, item, idx, itemType, itemName);
    ReadAs(TypedItem(typ, item, idx), Msg(typ, "", idx, itemType, itemName, ""), a);
  }

  lemma ItemCarries(item: List<Field>, idx: int, itemType: string, itemName: string)
    requires StrIn(item, "type") == Some(itemType) && StrIn(item, "name") == Some(itemName) && PrintableFields(item)
    ensures Carries(ItemFrame(item, idx), if itemType == "function_call" then Open(idx, itemName) else Skip)
  {
    ActKinds(Msg(ADDED, "", idx, itemType, itemName, ""));
    TypedItemCarries(ADDED, item, idx, itemType, itemName, if itemType == "function_call" then Open(idx, itemName) else Skip);
  }

  lemma MessageCarries()
    ensures Carries(ItemFrame(MessageItem(), 0), Skip)
  {
    ItemsRead("", "", "");
    assert |"message"| != |"function_call"|;
    ItemCarries(MessageItem(), 0, "message", "");
  }

  lemma CallCarries(id: string, callId: string, name: string, idx: int)
    ensures Carries(ItemFrame(CallItem(id, callId, name), idx), Open(idx, name))
  {
    ItemsRead(id, callId, name);
    ItemCarries(CallItem(id, callId, name), idx, "function_call", name);
  }

  lemma TypedDeltaCarries(typ: string, delta: string, itemId: string, idx: int, a: Act)
    requires Clean(typ) && ActOf(Msg(typ, delta, idx, "", "", "")) == a
    ensures Carries(DeltaFrame(typ, delta, itemId, idx), a)
  {
    DeltaMsg(typ, delta, itemId, idx);
    ReadAs(DeltaFrame(typ, delta, itemId, idx), Msg(typ, delta, idx, "", "", ""), a);
  }

  lemma TextCarries(delta: string, itemId: string, idx: int)
    ensures Carries(DeltaFrame(TEXT, delta, itemId, idx), AddText(delta))
  {
    ActKinds(Msg(TEXT, delta, idx, "", "", ""));
    TypedDeltaCarries(TEXT, delta, itemId, idx, AddText(delta));
  }

  lemma ArgsCarries(delta: string, itemId: string, idx: int)
    ensures Carries(DeltaFrame(ARGS, delta, itemId, idx), AddArgs(idx, delta))
  {
    ActKinds(Msg(ARGS, delta, idx, "", "", ""));
    TypedDeltaCarries(ARGS, delta, itemId, idx, AddArgs(idx, delta));
  }
}
