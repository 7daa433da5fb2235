/** What every encoder takes besides the turn: the volatile fields the decoders drop, such as message
    ids, model names, tool ids and token counts, each with the default of the recorder. */
module Envelopes {
  import opened Records

  datatype Envelope = Envelope(messageId: string, modelId: string, toolCallIds: seq<string>,
                               inputTokens: int, outputTokens: int)
  {
    function MsgId(def: string): string { if messageId != "" then messageId else def }

    function Model(): string { if modelId != "" then modelId else "model" }

    function ToolId(i: nat, prefix: string): string {
      if i < |toolCallIds| && toolCallIds[i] != "" then toolCallIds[i] else prefix + NatText(i)
    }

    function ToolIds(n: nat, prefix: string): seq<string> { seq(n, i requires 0 <= i => ToolId(i, prefix)) }
  }

  const ZERO := Envelope("", "", [], 0, 0)
}

/** The Anthropic Messages stream: indexed content blocks, opened, extended by deltas, and read off
    in opening order at the end. */
module Anthropic {
  import opened Lists
  import opened Options
  import opened Json
  import opened Canon
  import opened Records
  import opened Sse
  import opened Transcript
  import opened Envelopes

  // ---------------------------------------------------------------- decoding

  /** What one event does to the decoder. */
  datatype Delta =
    | BlockStart(index: int, typ: string, name: string)
    | BlockDelta(index: int, kind: string, text: string, json: string)
    | MessageDelta(stop: string)
    | StreamError
    | Ignored

  function ReadStart(f: List<Field>): Option<Delta> {
    var index :- IntIn(f, "index");
    var block :- SubIn(f, "content_block");
    var typ :- StrIn(block, "type");
    var name :- StrIn(block, "name");
    Some(BlockStart(index, typ, name))
  }

  function ReadDelta(f: List<Field>): Option<Delta> {
    var index :- IntIn(f, "index");
    var delta :- SubIn(f, "delta");
    var kind :- StrIn(delta, "type");
    var text :- StrIn(delta, "text");
    var json :- StrIn(delta, "partial_json");
    Some(BlockDelta(index, kind, text, json))
  }

  function ReadMessageDelta(f: List<Field>): Option<Delta> {
    var delta :- SubIn(f, "delta");
    var stop :- StrIn(delta, "stop_reason");
    Some(MessageDelta(stop))
  }

  /** The event names the decoder acts on. */
  datatype Kind = StartKind | DeltaKind | MessageKind | ErrorKind | OtherKind

  function KindOf(typ: string): Kind {
    if typ == "content_block_start" then StartKind
    else if typ == "content_block_delta" then DeltaKind
    else if typ == "message_delta" then MessageKind
    else if typ == "error" then ErrorKind
    else OtherKind
  }

  /** An event whose data does not decode is passed over; an error event counts whatever its data. */
  function ReadEvent(ev: Event): Delta {
    var v := ParseDoc(ev.data);
    ReadKind(KindOf(ev.typ), if v.Some? then FieldsOf(v.value) else None)
  }

  function ReadKind(kind: Kind, f: Option<List<Field>>): Delta {
    if kind == ErrorKind then StreamError
    else if f.None? then Ignored
    else
      var d := match kind
        case StartKind => ReadStart(f.value)
        case DeltaKind => ReadDelta(f.value)
        case MessageKind => ReadMessageDelta(f.value)
        case _ => None;
      if d.Some? then d.value else Ignored
  }

  datatype Block = Block(typ: string, name: string, text: string, args: string)

  /** The decoder's variables. */
  datatype State = State(blocks: map<int, Block>, order: seq<int>, finish: string, failed: bool)

  const START := State(map[], [], "", false)

  function Extend(b: Block, kind: string, text: string, json: string): Block {
    if kind == "text_delta" then b.(text := b.text + text)
    else if kind == "input_json_delta" then b.(args := b.args + json)
    else b
  }

  function Apply(st: State, d: Delta): State {
    match d
    case BlockStart(i, typ, name) => st.(blocks := st.blocks[i := Block(typ, name, "", "")], order := st.order + [i])
    case BlockDelta(i, kind, text, json) =>
      if i in st.blocks then st.(blocks := st.blocks[i := Extend(st.blocks[i], kind, text, json)]) else st
    case MessageDelta(stop) => if stop != "" then st.(finish := stop) else st
    case StreamError => st.(failed := true)
    case Ignored => st
  }

  function BlockTexts(order: seq<int>, blocks: map<int, Block>): string {
    if order == [] then ""
    else
      (if order[0] in blocks && blocks[order[0]].typ == "text" then blocks[order[0]].text else "")
      + BlockTexts(order[1..], blocks)
  }

  function BlockCalls(order: seq<int>, blocks: map<int, Block>): seq<ToolCall> {
    if order == [] then []
    else
      (if order[0] in blocks && blocks[order[0]].typ == "tool_use"
       then [ToolCall(blocks[order[0]].name, CanonArgs(blocks[order[0]].args))] else [])
      + BlockCalls(order[1..], blocks)
  }

  function Assemble(st: State): Turn {
    Normalize(Turn("assistant", BlockTexts(st.order, st.blocks), BlockCalls(st.order, st.blocks), st.finish))
  }

  function Deltas(events: seq<Event>): seq<Delta> {
    if events == [] then [] else [ReadEvent(events[0])] + Deltas(events[1..])
  }

  /** The decoded turn, and whether the stream carried a provider error. */
  datatype Decoded = Decoded(turn: Turn, failed: bool)

  function DecodeEvents(events: seq<Event>): Decoded {
    var st := Fold(Apply, START, Deltas(events));
    Decoded(Assemble(st), st.failed)
  }

  function Decode(raw: string): Decoded {
    DecodeEvents(Events(raw))
  }

  /** The first pass: events update the block table, the opening order and the finish reason. */
  method Collect(events: seq<Event>) returns (blocks: map<int, Block>, order: seq<int>, finish: string, failed: bool)
    ensures State(blocks, order, finish, failed) == Fold(Apply, START, Deltas(events))
  {
    blocks, order, finish, failed := map[], [], "", false;
    var k := 0;
    while k < |events|
      invariant 0 <= k <= |events|
      invariant Fold(Apply, START, Deltas(events)) == Fold(Apply, State(blocks, order, finish, failed), Deltas(events[k..]))
    {
      DeltasFrom(events, k);
      match ReadEvent(events[k]) {
        case BlockStart(i, typ, name) =>
          blocks := blocks[i := Block(typ, name, "", "")];
          order := order + [i];
        case BlockDelta(i, kind, text, json) =>
          if i in blocks { blocks := blocks[i := Extend(blocks[i], kind, text, json)]; }
        case MessageDelta(stop) =>
          if stop != "" { finish := stop; }
        case StreamError => failed := true;
        case Ignored =>
      }
      k := k + 1;
    }
  }

  lemma DeltasFrom(events: seq<Event>, k: nat)
    requires k < |events|
    ensures Deltas(events[k..]) == [ReadEvent(events[k])] + Deltas(events[k + 1..])
    ensures Deltas(events[k..])[1..] == Deltas(events[k + 1..])
  {
    assert events[k..][1..] == events[k + 1..];
  }

  /** The blocks before the k-th have been read off. */
  predicate ReadUpTo(blocks: map<int, Block>, order: seq<int>, k: nat, text: string, calls: seq<ToolCall>) {
    && k <= |order|
    && BlockTexts(order, blocks) == text + BlockTexts(order[k..], blocks)
    && BlockCalls(order, blocks) == calls + BlockCalls(order[k..], blocks)
  }

  lemma ReadOne(blocks: map<int, Block>, order: seq<int>, k: nat, text: string, calls: seq<ToolCall>)
    requires k < |order| && ReadUpTo(blocks, order, k, text, calls)
    ensures var i := order[k];
      ReadUpTo(blocks, order, k + 1,
               if i in blocks && blocks[i].typ == "text" then text + blocks[i].text else text,
               if i in blocks && blocks[i].typ == "tool_use"
               then calls + [ToolCall(blocks[i].name, CanonArgs(blocks[i].args))] else calls)
  {
    assert order[k..][1..] == order[k + 1..];
    var texts, rest := BlockTexts(order[k + 1..], blocks), BlockCalls(order[k + 1..], blocks);
    assert "" + texts == texts && [] + rest == rest;
    if order[k] in blocks {
      var b := blocks[order[k]];
      Assoc(text, b.text, texts);
      Assoc(calls, [ToolCall(b.name, CanonArgs(b.args))], rest);
    }
  }

  /** The second pass: the blocks read off in opening order. */
  method ReadOff(blocks: map<int, Block>, order: seq<int>) returns (text: string, calls: seq<ToolCall>)
    ensures text == BlockTexts(order, blocks) && calls == BlockCalls(order, blocks)
  {
    text, calls := "", [];
    var k := 0;
    NothingRead(blocks, order);
    while k < |order|
      invariant 0 <= k <= |order| && ReadUpTo(blocks, order, k, text, calls)
    {
      ReadOne(blocks, order, k, text, calls);
      if order[k] in blocks {
        var b := blocks[order[k]];
        if b.typ == "text" {
          text := text + b.text;
        } else if b.typ == "tool_use" {
          calls := calls + [ToolCall(b.name, CanonArgs(b.args))];
        }
      }
      k := k + 1;
    }
    assert text + "" == text && calls + [] == calls;
  }

  lemma NothingRead(blocks: map<int, Block>, order: seq<int>)
    ensures ReadUpTo(blocks, order, 0, "", [])
  {
    assert order[0..] == order && "" + BlockTexts(order, blocks) == BlockTexts(order, blocks);
    assert [] + BlockCalls(order, blocks) == BlockCalls(order, blocks);
  }

  method DecodeAnthropicSSE(raw: string) returns (t: Turn, failed: bool)
    ensures Decoded(t, failed) == Decode(raw)
  {
    var events := ParseSSE(raw);
    var blocks, order, finish, err := Collect(events);
    var text, calls := ReadOff(blocks, order);
    t, failed := Normalize(Turn("assistant", text, calls, finish)), err;
  }

  // ---------------------------------------------------------------- encoding

  function StartFrame(env: Envelope): Frame {
    Frame("message_start", Obj(R2("message", Obj(
      Cons(Field("content", Arr(Nil)), Cons(Field("id", Str(env.MsgId("msg_0000"))), Cons(Field("model", Str(env.Model())),
        R5("role", Str("assistant"), "stop_reason", Null, "stop_sequence", Null, "type", Str("message"),
           "usage", Obj(R2("input_tokens", Int(env.inputTokens), "output_tokens", Int(1)))))))),
      "type", Str("message_start"))))
  }

  function OpenText(idx: int): Frame {
    Frame("content_block_start", Obj(R3("content_block", Obj(R2("text", Str(""), "type", Str("text"))),
      "index", Int(idx), "type", Str("content_block_start"))))
  }

  function OpenTool(idx: int, id: string, name: string): Frame {
    Frame("content_block_start", Obj(R3("content_block",
      Obj(R4("id", Str(id), "input", Obj(Nil), "name", Str(name), "type", Str("tool_use"))),
      "index", Int(idx), "type", Str("content_block_start"))))
  }

  function TextDelta(idx: int, text: string): Frame {
    Frame("content_block_delta", Obj(R3("delta", Obj(R2("text", Str(text), "type", Str("text_delta"))),
      "index", Int(idx), "type", Str("content_block_delta"))))
  }

  function ArgsDelta(idx: int, args: string): Frame {
    Frame("content_block_delta", Obj(R3("delta", Obj(R2("partial_json", Str(args), "type", Str("input_json_delta"))),
      "index", Int(idx), "type", Str("content_block_delta"))))
  }

  function CloseBlock(idx: int): Frame {
    Frame("content_block_stop", Obj(R2("index", Int(idx), "type", Str("content_block_stop"))))
  }

  /** The stop reason is left out when the turn has none. */
  function EndFrame(finish: string, env: Envelope): Frame {
    Frame("message_delta", Obj(R3(
      "delta", Obj(if finish == "" then R1("stop_sequence", Null)
                   else R2("stop_reason", Str(finish), "stop_sequence", Null)),
      "type", Str("message_delta"), "usage", Obj(R1("output_tokens", Int(env.outputTokens))))))
  }

  const STOP := Frame("message_stop", Obj(R1("type", Str("message_stop"))))

  function TextDeltas(idx: int, chunks: seq<string>): seq<Frame> {
    if chunks == [] then [] else [TextDelta(idx, chunks[0])] + TextDeltas(idx, chunks[1..])
  }

  /** The text block, its text cut into chunks; no block when there is no text. */
  function TextBlock(chunks: seq<string>): seq<Frame> {
    if chunks == [] then [] else [OpenText(0)] + TextDeltas(0, chunks) + [CloseBlock(0)]
  }

  function ToolBlock(idx: int, id: string, c: ToolCall): seq<Frame> {
    [OpenTool(idx, id, c.name), ArgsDelta(idx, CanonArgs(c.args)), CloseBlock(idx)]
  }

  function ToolBlocks(idx: int, ids: seq<string>, calls: seq<ToolCall>): seq<Frame>
    requires |ids| == |calls|
    decreases |calls|
  {
    if calls == [] then [] else ToolBlock(idx, ids[0], calls[0]) + ToolBlocks(idx + 1, ids[1..], calls[1..])
  }

  /** The stream of a turn in some framing: its text in chunks, its tool calls in some order. */
  function Stream(env: Envelope, chunks: seq<string>, ids: seq<string>, calls: seq<ToolCall>, finish: string): seq<Frame>
    requires |ids| == |calls|
  {
    [StartFrame(env)] + TextBlock(chunks) + ToolBlocks(if chunks == [] then 0 else 1, ids, calls)
    + [EndFrame(finish, env)] + [STOP]
  }

  function WholeText(text: string): seq<string> {
    if text == "" then [] else [text]
  }

  function Frames(t: Turn, env: Envelope): seq<Frame> {
    Stream(env, WholeText(t.text), env.ToolIds(|t.calls|, "toolu_"), t.calls, t.finish)
  }

  function Encode(t: Turn, env: Envelope): string {
    Render(Frames(Normalize(t), env))
  }

  lemma WholeTextBlock(text: string)
    requires text != ""
    ensures TextBlock(WholeText(text)) == [OpenText(0)] + [TextDelta(0, text)] + [CloseBlock(0)]
  {
    assert [text][1..] == [] && TextDeltas(0, []) == [];
    assert TextDeltas(0, [text]) == [TextDelta(0, text)] + [];
  }

  method EmitText(b: string, ghost done: seq<Frame>, text: string) returns (r: string, idx: int)
    requires b == Render(done)
    ensures r == Render(done + TextBlock(WholeText(text))) && idx == if text == "" then 0 else 1
  {
    r, idx := b, 0;
    if text != "" {
      r := Emit(r, done, OpenText(idx));
      r := Emit(r, done + [OpenText(idx)], TextDelta(idx, text));
      r := Emit(r, done + [OpenText(idx)] + [TextDelta(idx, text)], CloseBlock(idx));
      WholeTextBlock(text);
      Assoc(done, [OpenText(0)], [TextDelta(0, text)]);
      Assoc(done, [OpenText(0)] + [TextDelta(0, text)], [CloseBlock(0)]);
      idx := idx + 1;
    } else {
      assert done + [] == done;
    }
  }

  method EmitTool(b: string, ghost done: seq<Frame>, idx: int, id: string, c: ToolCall) returns (r: string)
    requires b == Render(done)
    ensures r == Render(done + ToolBlock(idx, id, c))
  {
    var open, args := OpenTool(idx, id, c.name), ArgsDelta(idx, CanonArgs(c.args));
    r := Emit(b, done, open);
    r := Emit(r, done + [open], args);
    r := Emit(r, done + [open] + [args], CloseBlock(idx));
    assert done + [open] + [args] + [CloseBlock(idx)] == done + ToolBlock(idx, id, c);
  }

  method EmitTools(b: string, ghost done: seq<Frame>, first: int, env: Envelope, calls: seq<ToolCall>) returns (r: string)
    requires b == Render(done)
    ensures r == Render(done + ToolBlocks(first, env.ToolIds(|calls|, "toolu_"), calls))
  {
    ghost var ids := env.ToolIds(|calls|, "toolu_");
    ghost var out := done;
    r := b;
    var idx, i := first, 0;
    assert calls[0..] == calls && ids[0..] == ids;
    while i < |calls|
      invariant 0 <= i <= |calls| && idx == first + i && r == Render(out)
      invariant out + ToolBlocks(idx, ids[i..], calls[i..]) == done + ToolBlocks(first, ids, calls)
    {
      var id := env.ToolId(i, "toolu_");
      r := EmitTool(r, out, idx, id, calls[i]);
      assert calls[i..][1..] == calls[i + 1..] && ids[i..][1..] == ids[i + 1..];
      Assoc(out, ToolBlock(idx, id, calls[i]), ToolBlocks(idx + 1, ids[i + 1..], calls[i + 1..]));
      out := out + ToolBlock(idx, id, calls[i]);
      idx := idx + 1;
      i := i + 1;
    }
    assert calls[i..] == [];
    assert out + [] == out;
  }

  method EncodeAnthropicSSE(turn: Turn, env: Envelope) returns (b: string)
    ensures b == Encode(turn, env)
  {
    var t := Normalize(turn);
    var head := StartFrame(env);
    b := Emit("", [], head);
    var idx;
    b, idx := EmitText(b, [] + [head], t.text);
    ghost var done := [] + [head] + TextBlock(WholeText(t.text));
    b := EmitTools(b, done, idx, env, t.calls);
    done := done + ToolBlocks(idx, env.ToolIds(|t.calls|, "toolu_"), t.calls);
    b := Emit(b, done, EndFrame(t.finish, env));
    b := Emit(b, done + [EndFrame(t.finish, env)], STOP);
    assert [] + [head] == [head];
  }

  // ---------------------------------------------------------------- what each frame is read as

  /** The frame is printable and its payload is read as d. */
  predicate Carries(f: Frame, d: Delta) {
    && Clean(f.event) && f.payload.Obj? && PrintableFields(f.payload.fields)
    && ReadKind(KindOf(f.event), Some(f.payload.fields)) == d
  }

  lemma KindsRead()
    ensures KindOf("content_block_start") == StartKind && KindOf("content_block_delta") == DeltaKind
    ensures KindOf("message_delta") == MessageKind
    ensures KindOf("message_start") == OtherKind && KindOf("content_block_stop") == OtherKind && KindOf("message_stop") == OtherKind
  {
    assert "content_block_delta"[14] != "content_block_start"[14];
    assert "message_start"[8] != "message_delta"[8];
  }

  lemma CarriesReads(f: Frame, d: Delta)
    requires Carries(f, d)
    ensures Printable(f.payload) && ReadEvent(Event(f.event, Print(f.payload) + "\n")) == d
  {
    PayloadParses(f.payload);
  }

  lemma IndexedFields(k: string, v: Value, idx: int, typ: string)
    requires k != "index" && k != "type"
    ensures var f := R3(k, v, "index", Int(idx), "type", Str(typ));
      IntIn(f, "index") == Some(idx) && SubIn(f, k) == FieldsOf(v) && (PrintableFields(f) <==> Printable(v))
  {
    IntPrintable(idx);
    IntTextValue(idx);
  }

  lemma StartPrintable(env: Envelope)
    ensures PrintableFields(StartFrame(env).payload.fields)
  {
    IntPrintable(env.inputTokens);
    IntPrintable(1);
    var usage := R2("input_tokens", Int(env.inputTokens), "output_tokens", Int(1));
    var tail := R5("role", Str("assistant"), "stop_reason", Null, "stop_sequence", Null, "type", Str("message"),
      "usage", Obj(usage));
    assert Printable(Obj(usage)) && PrintableFields(tail);
    var f2 := Cons(Field("model", Str(env.Model())), tail);
    assert PrintableFields(f2);
    var f1 := Cons(Field("id", Str(env.MsgId("msg_0000"))), f2);
    assert PrintableFields(f1);
    assert PrintableFields(Cons(Field("content", Arr(Nil)), f1));
  }

  lemma StartCarries(env: Envelope)
    ensures Carries(StartFrame(env), Ignored)
  {
    StartPrintable(env);
    StartIsOther();
    OtherIgnored(StartFrame(env));
  }

  lemma StartIsOther()
    ensures KindOf("message_start") == OtherKind && Clean("message_start")
  {
    KindsRead();
  }

  lemma OtherIgnored(f: Frame)
    requires Clean(f.event) && KindOf(f.event) == OtherKind && f.payload.Obj? && PrintableFields(f.payload.fields)
    ensures Carries(f, Ignored)
  {
  }

  lemma OpenTextReads(idx: int)
    ensures ReadStart(OpenText(idx).payload.fields) == Some(BlockStart(idx, "text", ""))
    ensures PrintableFields(OpenText(idx).payload.fields)
  {
    var b := R2("text", Str(""), "type", Str("text"));
    assert StrIn(b, "type") == Some("text") && StrIn(b, "name") == Some("") by {
      assert "text"[0] != "name"[0] && "type"[0] != "name"[0];
    }
    IndexedFields("content_block", Obj(b), idx, "content_block_start");
  }

  lemma OpenToolReads(idx: int, id: string, name: string)
    ensures ReadStart(OpenTool(idx, id, name).payload.fields) == Some(BlockStart(idx, "tool_use", name))
    ensures PrintableFields(OpenTool(idx, id, name).payload.fields)
  {
    var b := R4("id", Str(id), "input", Obj(Nil), "name", Str(name), "type", Str("tool_use"));
    assert StrIn(b, "type") == Some("tool_use") && StrIn(b, "name") == Some(name) by {
      assert "type"[0] != "name"[0];
    }
    IndexedFields("content_block", Obj(b), idx, "content_block_start");
  }

  lemma TextDeltaReads(idx: int, text: string)
    ensures ReadDelta(TextDelta(idx, text).payload.fields) == Some(BlockDelta(idx, "text_delta", text, ""))
    ensures PrintableFields(TextDelta(idx, text).payload.fields)
  {
    var b := R2("text", Str(text), "type", Str("text_delta"));
    assert StrIn(b, "type") == Some("text_delta") && StrIn(b, "text") == Some(text) && StrIn(b, "partial_json") == Some("") by {
      assert "text"[1] != "type"[1];
    }
    assert "delta"[0] != "index"[0];
    IndexedFields("delta", Obj(b), idx, "content_block_delta");
  }

  lemma ArgsDeltaReads(idx: int, args: string)
    ensures ReadDelta(ArgsDelta(idx, args).payload.fields) == Some(BlockDelta(idx, "input_json_delta", "", args))
    ensures PrintableFields(ArgsDelta(idx, args).payload.fields)
  {
    var b := R2("partial_json", Str(args), "type", Str("input_json_delta"));
    assert StrIn(b, "type") == Some("input_json_delta") && StrIn(b, "partial_json") == Some(args) && StrIn(b, "text") == Some("") by {
      assert "text"[1] != "type"[1];
    }
    assert "delta"[0] != "index"[0];
    IndexedFields("delta", Obj(b), idx, "content_block_delta");
  }

  lemma StartReads(f: Frame, d: Delta)
    requires f.event == "content_block_start" && f.payload.Obj? && PrintableFields(f.payload.fields)
    requires ReadStart(f.payload.fields) == Some(d)
    ensures Carries(f, d)
  {
    KindsRead();
  }

  lemma DeltaReads(f: Frame, d: Delta)
    requires f.event == "content_block_delta" && f.payload.Obj? && PrintableFields(f.payload.fields)
    requires ReadDelta(f.payload.fields) == Some(d)
    ensures Carries(f, d)
  {
    DeltaIsDelta();
    assert ReadKind(DeltaKind, Some(f.payload.fields)) == d;
  }

  lemma DeltaIsDelta()
    ensures KindOf("content_block_delta") == DeltaKind && Clean("content_block_delta")
  {
    KindsRead();
  }

  lemma BlockFramesCarry(idx: int, id: string, name: string, text: string)
    ensures Carries(OpenText(idx), BlockStart(idx, "text", ""))
    ensures Carries(OpenTool(idx, id, name), BlockStart(idx, "tool_use", name))
    ensures Carries(TextDelta(idx, text), BlockDelta(idx, "text_delta", text, ""))
    ensures Carries(ArgsDelta(idx, text), BlockDelta(idx, "input_json_delta", "", text))
  {
    OpenTextReads(idx);
    StartReads(OpenText(idx), BlockStart(idx, "text", ""));
    OpenToolReads(idx, id, name);
    StartReads(OpenTool(idx, id, name), BlockStart(idx, "tool_use", name));
    TextDeltaReads(idx, text);
    DeltaReads(TextDelta(idx, text), BlockDelta(idx, "text_delta", text, ""));
    ArgsDeltaReads(idx, text);
    DeltaReads(ArgsDelta(idx, text), BlockDelta(idx, "input_json_delta", "", text));
  }

  lemma CloseFields(idx: int)
    ensures PrintableFields(R2("index", Int(idx), "type", Str("content_block_stop")))
  {
    IntPrintable(idx);
  }

  lemma CloseCarries(idx: int)
    ensures Carries(CloseBlock(idx), Ignored)
  {
    CloseFields(idx);
    CloseIsOther();
    OtherIgnored(CloseBlock(idx));
  }

  lemma CloseIsOther()
    ensures KindOf("content_block_stop") == OtherKind && Clean("content_block_stop")
  {
    KindsRead();
  }

  lemma EndFields(finish: string)
    ensures var f := if finish == "" then R1("stop_sequence", Null) else R2("stop_reason", Str(finish), "stop_sequence", Null);
      StrIn(f, "stop_reason") == Some(finish) && PrintableFields(f)
  {
  }

  lemma EndCarries(finish: string, env: Envelope)
    ensures Carries(EndFrame(finish, env), MessageDelta(finish))
  {
    EndFields(finish);
    IntPrintable(env.outputTokens);
    KindsRead();
    var f := if finish == "" then R1("stop_sequence", Null) else R2("stop_reason", Str(finish), "stop_sequence", Null);
    MessageReads(f, finish, Obj(R1("output_tokens", Int(env.outputTokens))));
  }

  lemma MessageReads(f: List<Field>, finish: string, usage: Value)
    requires StrIn(f, "stop_reason") == Some(finish)
    ensures ReadKind(MessageKind, Some(R3("delta", Obj(f), "type", Str("message_delta"), "usage", usage))) == MessageDelta(finish)
  {
    assert "delta"[0] != "usage"[0];
  }

  lemma StopCarries()
    ensures Carries(STOP, Ignored)
  {
    KindsRead();
  }
}
