/** The table of tool calls under construction, by index, with the order of first appearance. Both OpenAI
    dialects gather fragments in such a table and read it off in that order. */
module ToolTables {
  import opened Canon
  import opened Transcript

  datatype Acc = Acc(name: string, args: string)

  datatype Table = Table(tools: map<int, Acc>, order: seq<int>)

  const EMPTY := Table(map[], [])

  function Calls(order: seq<int>, tools: map<int, Acc>): seq<ToolCall> {
    if order == [] then []
    else
      (if order[0] in tools then [ToolCall(tools[order[0]].name, CanonArgs(tools[order[0]].args))] else [])
      + Calls(order[1..], tools)
  }

  lemma {:induction false} CallsSnoc(order: seq<int>, tools: map<int, Acc>, i: int, a: Acc)
    requires i !in order
    ensures Calls(order + [i], tools[i := a]) == Calls(order, tools) + [ToolCall(a.name, CanonArgs(a.args))]
  {
    if order == [] {
      assert order + [i] == [i] && [i][1..] == [];
    } else {
      assert (order + [i])[1..] == order[1..] + [i];
      CallsSnoc(order[1..], tools, i, a);
    }
  }

  /** The second pass of both decoders: the calls read off in order. */
  method ReadOff(table: Table) returns (calls: seq<ToolCall>)
    ensures calls == Calls(table.order, table.tools)
  {
    calls := [];
    var k := 0;
    while k < |table.order|
      invariant 0 <= k <= |table.order|
      invariant Calls(table.order, table.tools) == calls + Calls(table.order[k..], table.tools)
    {
      assert table.order[k..][1..] == table.order[k + 1..];
      if table.order[k] in table.tools {
        var a := table.tools[table.order[k]];
        calls := calls + [ToolCall(a.name, CanonArgs(a.args))];
      }
      k := k + 1;
    }
  }
}

/** The OpenAI Chat Completions stream: data-only chunks, closed by a [DONE] marker. */
module OpenAI {
  import opened Lists
  import opened Options
  import opened Json
  import opened Canon
  import opened Records
  import opened Sse
  import opened Transcript
  import opened Envelopes
  import opened ToolTables

  // ---------------------------------------------------------------- decoding

  datatype ToolPart = ToolPart(index: int, name: string, args: string)

  /** The first choice of a chunk. */
  datatype Choice = Choice(content: string, tools: seq<ToolPart>, finish: string)

  function ReadTool(v: Value): Option<ToolPart> {
    var f :- FieldsOf(v);
    var index :- IntIn(f, "index");
    var id :- StrIn(f, "id");
    var fn :- SubIn(f, "function");
    var name :- StrIn(fn, "name");
    var args :- StrIn(fn, "arguments");
    Some(ToolPart(index, name, args))
  }

  function ReadChoice(v: Value): Option<Choice> {
    var f :- FieldsOf(v);
    var delta :- SubIn(f, "delta");
    var role :- StrIn(delta, "role");
    var content :- StrIn(delta, "content");
    var calls :- ListIn(delta, "tool_calls");
    var tools :- Each(calls, ReadTool);
    var finish :- StrIn(f, "finish_reason");
    Some(Choice(content, tools, finish))
  }

  /** A chunk without choices, or one that does not decode, is passed over. */
  function ReadChunk(f: List<Field>): Option<Choice> {
    var choices :- ListIn(f, "choices");
    var read :- Each(choices, ReadChoice);
    if read == [] then None else Some(read[0])
  }

  function ReadEvent(ev: Event): Option<Choice> {
    var data := TrimSpace(ev.data);
    if data == "" || data == "[DONE]" then None
    else
      var v :- ParseDoc(data);
      var f :- FieldsOf(v);
      ReadChunk(f)
  }

  datatype State = State(text: string, table: Table, finish: string)

  const START := State("", EMPTY, "")

  function AddPart(t: Table, p: ToolPart): Table {
    var known := p.index in t.tools;
    var a := if known then t.tools[p.index] else Acc("", "");
    Table(t.tools[p.index := Acc(if p.name != "" then p.name else a.name, a.args + p.args)],
          if known then t.order else t.order + [p.index])
  }

  function AddParts(t: Table, ps: seq<ToolPart>): Table
    decreases |ps|
  {
    if ps == [] then t else AddParts(AddPart(t, ps[0]), ps[1..])
  }

  function Apply(st: State, c: Option<Choice>): State {
    match c
    case None => st
    case Some(c) =>
      State(st.text + c.content, AddParts(st.table, c.tools), if c.finish != "" then c.finish else st.finish)
  }

  function Choices(events: seq<Event>): seq<Option<Choice>> {
    if events == [] then [] else [ReadEvent(events[0])] + Choices(events[1..])
  }

  function Assemble(st: State): Turn {
    Normalize(Turn("assistant", st.text, Calls(st.table.order, st.table.tools), st.finish))
  }

  function Decode(raw: string): Turn {
    Assemble(Fold(Apply, START, Choices(Events(raw))))
  }

  lemma PutTwice(m: map<int, Acc>, i: int, a: Acc, b: Acc)
    ensures m[i := a][i := b] == m[i := b]
  {
  }

  method AddChoiceParts(t: Table, ps: seq<ToolPart>) returns (r: Table)
    ensures r == AddParts(t, ps)
  {
    r := t;
    var k := 0;
    while k < |ps|
      invariant 0 <= k <= |ps| && AddParts(t, ps) == AddParts(r, ps[k..])
    {
      assert ps[k..][1..] == ps[k + 1..];
      var p := ps[k];
      ghost var before := r;
      if p.index !in r.tools {
        r := Table(r.tools[p.index := Acc("", "")], r.order + [p.index]);
      }
      var a := r.tools[p.index];
      if p.name != "" {
        a := a.(name := p.name);
      }
      r := r.(tools := r.tools[p.index := a.(args := a.args + p.args)]);
      PutTwice(before.tools, p.index, Acc("", ""), a.(args := a.args + p.args));
      assert r == AddPart(before, p);
      k := k + 1;
    }
  }

  method DecodeOpenAISSE(raw: string) returns (t: Turn)
    ensures t == Decode(raw)
  {
    var text, table, finish := "", EMPTY, "";
    var events := ParseSSE(raw);
    var k := 0;
    while k < |events|
      invariant 0 <= k <= |events|
      invariant Fold(Apply, START, Choices(events)) == Fold(Apply, State(text, table, finish), Choices(events[k..]))
    {
      assert events[k..][1..] == events[k + 1..];
      assert Choices(events[k..])[1..] == Choices(events[k + 1..]);
      var c := ReadEvent(events[k]);
      if c.Some? {
        text := text + c.value.content;
        table := AddChoiceParts(table, c.value.tools);
        if c.value.finish != "" {
          finish := c.value.finish;
        }
      }
      k := k + 1;
    }
    var calls := ReadOff(table);
    t := Normalize(Turn("assistant", text, calls, finish));
  }

  // ---------------------------------------------------------------- encoding

  function ChoiceValue(delta: List<Field>, finish: Value): Value {
    Obj(R3("delta", Obj(delta), "finish_reason", finish, "index", Int(0)))
  }

  function ChunkFrame(env: Envelope, delta: List<Field>, finish: Value): Frame {
    Frame("", Obj(R5("choices", One(ChoiceValue(delta, finish)), "created", Int(0),
      "id", Str(env.MsgId("chatcmpl_0000")), "model", Str(env.Model()), "object", Str("chat.completion.chunk"))))
  }

  function OpenValue(i: int, id: string, name: string): Value {
    Obj(R4("function", Obj(R2("arguments", Str(""), "name", Str(name))), "id", Str(id), "index", Int(i),
      "type", Str("function")))
  }

  function ArgsValueAt(i: int, args: string): Value {
    Obj(R2("function", Obj(R1("arguments", Str(args))), "index", Int(i)))
  }

  function RoleFrame(env: Envelope): Frame {
    ChunkFrame(env, R2("content", Str(""), "role", Str("assistant")), Null)
  }

  function TextFrame(env: Envelope, text: string): Frame {
    ChunkFrame(env, R1("content", Str(text)), Null)
  }

  function OpenFrame(env: Envelope, i: int, id: string, name: string): Frame {
    ChunkFrame(env, R1("tool_calls", One(OpenValue(i, id, name))), Null)
  }

  function ArgsFrame(env: Envelope, i: int, args: string): Frame {
    ChunkFrame(env, R1("tool_calls", One(ArgsValueAt(i, args))), Null)
  }

  function FinishFrame(env: Envelope, finish: string): Frame {
    ChunkFrame(env, Nil, if finish == "" then Null else Str(finish))
  }

  function ToolFrame(env: Envelope, i: int, id: string, c: ToolCall): seq<Frame> {
    [OpenFrame(env, i, id, c.name)] + [ArgsFrame(env, i, CanonArgs(c.args))]
  }

  function ToolFrames(env: Envelope, i: int, ids: seq<string>, calls: seq<ToolCall>): seq<Frame>
    requires |ids| == |calls|
    decreases |calls|
  {
    if calls == [] then []
    else
      ToolFrame(env, i, ids[0], calls[0])
      + ToolFrames(env, i + 1, ids[1..], calls[1..])
  }

  function UsageRecord(env: Envelope): List<Field> {
    R3("completion_tokens", Int(env.outputTokens), "prompt_tokens", Int(env.inputTokens),
       "total_tokens", Int(env.inputTokens + env.outputTokens))
  }

  function UsageChunk(env: Envelope, usage: Value): List<Field> {
    Cons(Field("choices", Arr(Nil)), R5("created", Int(0), "id", Str(env.MsgId("chatcmpl_0000")),
      "model", Str(env.Model()), "object", Str("chat.completion.chunk"), "usage", usage))
  }

  /** Token counts travel in a last chunk without choices, only when there are any. */
  function UsageFrames(env: Envelope): seq<Frame> {
    if env.inputTokens > 0 || env.outputTokens > 0 then [Frame("", Obj(UsageChunk(env, Obj(UsageRecord(env)))))] else []
  }

  function Frames(t: Turn, env: Envelope): seq<Frame> {
    [RoleFrame(env)] + (if t.text == "" then [] else [TextFrame(env, t.text)])
    + ToolFrames(env, 0, env.ToolIds(|t.calls|, "call_"), t.calls) + [FinishFrame(env, t.finish)] + UsageFrames(env)
  }

  const DONE := DataText("[DONE]")

  function Encode(t: Turn, env: Envelope): string {
    Render(Frames(Normalize(t), env)) + DONE
  }

  method EmitTool(b: string, ghost done: seq<Frame>, env: Envelope, i: int, id: string, c: ToolCall) returns (r: string)
    requires b == Render(done)
    ensures r == Render(done + ToolFrame(env, i, id, c))
  {
    var open, args := OpenFrame(env, i, id, c.name), ArgsFrame(env, i, CanonArgs(c.args));
    r := Emit(b, done, open);
    r := Emit(r, done + [open], args);
    Assoc(done, [open], [args]);
  }

  method EmitTools(b: string, ghost done: seq<Frame>, env: Envelope, calls: seq<ToolCall>) returns (r: string)
    requires b == Render(done)
    ensures r == Render(done + ToolFrames(env, 0, env.ToolIds(|calls|, "call_"), calls))
  {
    ghost var ids := env.ToolIds(|calls|, "call_");
    ghost var out := done;
    r := b;
    var i := 0;
    assert calls[0..] == calls && ids[0..] == ids;
    while i < |calls|
      invariant 0 <= i <= |calls| && r == Render(out)
      invariant out + ToolFrames(env, i, ids[i..], calls[i..]) == done + ToolFrames(env, 0, ids, calls)
    {
      var id := env.ToolId(i, "call_");
      r := EmitTool(r, out, env, i, id, calls[i]);
      assert calls[i..][1..] == calls[i + 1..] && ids[i..][1..] == ids[i + 1..];
      Assoc(out, ToolFrame(env, i, id, calls[i]), ToolFrames(env, i + 1, ids[i + 1..], calls[i + 1..]));
      out := out + ToolFrame(env, i, id, calls[i]);
      i := i + 1;
    }
    assert calls[i..] == [];
    assert out + [] == out;
  }

  method EncodeOpenAISSE(turn: Turn, env: Envelope) returns (b: string)
    ensures b == Encode(turn, env)
  {
    var t := Normalize(turn);
    b := Emit("", [], RoleFrame(env));
    ghost var done := [RoleFrame(env)];
    assert [] + [RoleFrame(env)] == done;
    if t.text != "" {
      b := Emit(b, done, TextFrame(env, t.text));
      done := done + [TextFrame(env, t.text)];
    } else {
      assert done + [] == done;
    }
    b := EmitTools(b, done, env, t.calls);
    done := done + ToolFrames(env, 0, env.ToolIds(|t.calls|, "call_"), t.calls);
    b := Emit(b, done, FinishFrame(env, t.finish));
    done := done + [FinishFrame(env, t.finish)];
    if env.inputTokens > 0 || env.outputTokens > 0 {
      b := Emit(b, done, UsageFrames(env)[0]);
      assert UsageFrames(env) == [UsageFrames(env)[0]];
    } else {
      assert done + [] == done;
    }
    b := b + DONE;
  }

  // ---------------------------------------------------------------- what each frame is read as

  predicate Carries(f: Frame, c: Option<Choice>) {
    f.event == "" && f.payload.Obj? && PrintableFields(f.payload.fields) && ReadChunk(f.payload.fields) == c
  }

  lemma CarriesReads(f: Frame, c: Option<Choice>)
    requires Carries(f, c)
    ensures Clean(f.event) && Printable(f.payload) && ReadEvent(Event(f.event, Print(f.payload) + "\n")) == c
  {
    ObjectTrims(f.payload.fields);
    PayloadParses(f.payload);
    assert Print(f.payload)[0] == '{';
  }

  lemma EachOne<T>(v: Value, read: Value -> Option<T>)
    ensures Each(Cons(v, Nil), read) == if read(v).Some? then Some([read(v).value]) else None
  {
    assert Each(Nil, read) == Some([]);
    if read(v).Some? { assert [read(v).value] + [] == [read(v).value]; }
  }

  lemma ChoiceReads(delta: List<Field>, finish: Value, c: Choice)
    requires PrintableFields(delta) && (finish == Null || finish.Str?)
    requires StrIn(delta, "role").Some? && StrIn(delta, "content") == Some(c.content)
    requires ListIn(delta, "tool_calls").Some? && Each(ListIn(delta, "tool_calls").value, ReadTool) == Some(c.tools)
    requires c.finish == if finish.Str? then finish.s else ""
    ensures ReadChoice(ChoiceValue(delta, finish)) == Some(c) && Printable(ChoiceValue(delta, finish))
  {
    assert "delta"[0] != "index"[0];
    IntPrintable(0);
  }

  lemma ChunkReads(env: Envelope, delta: List<Field>, finish: Value, c: Choice)
    requires ReadChoice(ChoiceValue(delta, finish)) == Some(c) && Printable(ChoiceValue(delta, finish))
    ensures Carries(ChunkFrame(env, delta, finish), Some(c))
  {
    IntPrintable(0);
    assert "choices"[1] != "created"[1];
    ChoicesRead(ChunkFrame(env, delta, finish).payload.fields, ChoiceValue(delta, finish), c);
  }

  lemma ChoicesRead(f: List<Field>, v: Value, c: Choice)
    requires Lookup(f, "choices") == Some(One(v)) && ReadChoice(v) == Some(c)
    ensures ReadChunk(f) == Some(c)
  {
    EachOne(v, ReadChoice);
  }

  lemma RoleCarries(env: Envelope)
    ensures Carries(RoleFrame(env), Some(Choice("", [], "")))
  {
    var d := R2("content", Str(""), "role", Str("assistant"));
    ChoiceReads(d, Null, Choice("", [], ""));
    ChunkReads(env, d, Null, Choice("", [], ""));
  }

  lemma TextCarries(env: Envelope, text: string)
    ensures Carries(TextFrame(env, text), Some(Choice(text, [], "")))
  {
    var e := R1("content", Str(text));
    ChoiceReads(e, Null, Choice(text, [], ""));
    ChunkReads(env, e, Null, Choice(text, [], ""));
  }

  lemma OpenReads(i: int, id: string, name: string)
    ensures ReadTool(OpenValue(i, id, name)) == Some(ToolPart(i, name, "")) && Printable(OpenValue(i, id, name))
  {
    IntPrintable(i);
    IntTextValue(i);
    var fn := R2("arguments", Str(""), "name", Str(name));
    assert StrIn(fn, "name") == Some(name) && StrIn(fn, "arguments") == Some("");
    assert PrintableFields(fn);
  }

  lemma ArgsReads(i: int, args: string)
    ensures ReadTool(ArgsValueAt(i, args)) == Some(ToolPart(i, "", args)) && Printable(ArgsValueAt(i, args))
  {
    IntPrintable(i);
    IntTextValue(i);
    var fn := R1("arguments", Str(args));
    assert StrIn(fn, "name") == Some("") && StrIn(fn, "arguments") == Some(args);
    assert PrintableFields(fn);
  }

  lemma ToolCarries(env: Envelope, v: Value, p: ToolPart)
    requires ReadTool(v) == Some(p) && Printable(v)
    ensures Carries(ChunkFrame(env, R1("tool_calls", One(v)), Null), Some(Choice("", [p], "")))
  {
    var d := R1("tool_calls", One(v));
    EachOne(v, ReadTool);
    ChoiceReads(d, Null, Choice("", [p], ""));
    ChunkReads(env, d, Null, Choice("", [p], ""));
  }

  lemma FinishCarries(env: Envelope, finish: string)
    ensures Carries(FinishFrame(env, finish), Some(Choice("", [], finish)))
  {
    var fin := if finish == "" then Null else Str(finish);
    ChoiceReads(Nil, fin, Choice("", [], finish));
    ChunkReads(env, Nil, fin, Choice("", [], finish));
  }

  lemma UsageRecordPrintable(env: Envelope)
    ensures PrintableFields(UsageRecord(env))
  {
    IntPrintable(env.inputTokens);
    IntPrintable(env.outputTokens);
    IntPrintable(env.inputTokens + env.outputTokens);
  }

  lemma UsageChunkReads(env: Envelope, usage: Value)
    requires Printable(usage)
    ensures PrintableFields(UsageChunk(env, usage)) && ReadChunk(UsageChunk(env, usage)) == None
  {
    IntPrintable(0);
    var tail := R5("created", Int(0), "id", Str(env.MsgId("chatcmpl_0000")),
      "model", Str(env.Model()), "object", Str("chat.completion.chunk"), "usage", usage);
    assert PrintableFields(tail);
    assert Lookup(tail, "choices").None? by { assert "choices"[1] != "created"[1]; }
    assert Lookup(Cons(Field("choices", Arr(Nil)), tail), "choices") == Some(Arr(Nil));
  }

  lemma UsageCarries(env: Envelope)
    requires env.inputTokens > 0 || env.outputTokens > 0
    ensures Carries(UsageFrames(env)[0], None)
  {
    UsageRecordPrintable(env);
    UsageChunkReads(env, Obj(UsageRecord(env)));
  }
}
