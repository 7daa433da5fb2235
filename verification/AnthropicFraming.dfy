/** Every framing of a turn in the Anthropic dialect decodes to that turn; the canonical stream and the
    shuffled, re-chunked ones are instances of one stream shape. */
module AnthropicFraming {
  import opened Lists
  import opened Texts
  import opened Json
  import opened Canon
  import opened Sse
  import opened Transcript
  import opened Envelopes
  import opened Anthropic

  // ---------------------------------------------------------------- frames to deltas

  lemma {:induction false} CarriedDeltas(fs: seq<Frame>, ds: seq<Delta>)
    requires AllCarry(Carries, fs, ds)
    ensures WellFramed(fs) && Deltas(FrameEvents(fs)) == ds
  {
    if fs != [] {
      CarriesReads(fs[0], ds[0]);
      CarriedDeltas(fs[1..], ds[1..]);
      FramesFirst(fs[0], fs[1..]);
      DeltasFirst(Event(fs[0].event, Print(fs[0].payload) + "\n"), FrameEvents(fs[1..]));
      assert fs == [fs[0]] + fs[1..] && ds == [ds[0]] + ds[1..];
    }
  }

  lemma DeltasFirst(e: Event, rest: seq<Event>)
    ensures Deltas([e] + rest) == [ReadEvent(e)] + Deltas(rest)
  {
    assert ([e] + rest)[1..] == rest;
  }

  function ChunkDeltas(idx: int, chunks: seq<string>): seq<Delta> {
    if chunks == [] then [] else [BlockDelta(idx, "text_delta", chunks[0], "")] + ChunkDeltas(idx, chunks[1..])
  }

  function TextBlockDeltas(chunks: seq<string>): seq<Delta> {
    if chunks == [] then [] else [BlockStart(0, "text", "")] + ChunkDeltas(0, chunks) + [Ignored]
  }

  function ToolBlockDeltas(idx: int, c: ToolCall): seq<Delta> {
    [BlockStart(idx, "tool_use", c.name), BlockDelta(idx, "input_json_delta", "", CanonArgs(c.args)), Ignored]
  }

  function ToolDeltas(idx: int, calls: seq<ToolCall>): seq<Delta>
    decreases |calls|
  {
    if calls == [] then [] else ToolBlockDeltas(idx, calls[0]) + ToolDeltas(idx + 1, calls[1..])
  }

  lemma {:induction false} ChunksCarry(idx: int, chunks: seq<string>)
    ensures AllCarry(Carries, TextDeltas(idx, chunks), ChunkDeltas(idx, chunks))
  {
    if chunks != [] {
      BlockFramesCarry(idx, "", "", chunks[0]);
      CarryOne(Carries, TextDelta(idx, chunks[0]), BlockDelta(idx, "text_delta", chunks[0], ""));
      ChunksCarry(idx, chunks[1..]);
      CarryAppend(Carries, [TextDelta(idx, chunks[0])], [BlockDelta(idx, "text_delta", chunks[0], "")],
        TextDeltas(idx, chunks[1..]), ChunkDeltas(idx, chunks[1..]));
    }
  }

  lemma TextBlockCarries(chunks: seq<string>)
    ensures AllCarry(Carries, TextBlock(chunks), TextBlockDeltas(chunks))
  {
    if chunks != [] {
      var open, close := [OpenText(0)], [CloseBlock(0)];
      BlockFramesCarry(0, "", "", "");
      CarryOne(Carries, OpenText(0), BlockStart(0, "text", ""));
      CloseCarries(0);
      CarryOne(Carries, CloseBlock(0), Ignored);
      ChunksCarry(0, chunks);
      CarryAppend(Carries, open, [BlockStart(0, "text", "")], TextDeltas(0, chunks), ChunkDeltas(0, chunks));
      CarryAppend(Carries, open + TextDeltas(0, chunks), [BlockStart(0, "text", "")] + ChunkDeltas(0, chunks), close, [Ignored]);
    }
  }

  lemma CarryThree(f: Frame, g: Frame, h: Frame, d: Delta, e: Delta, k: Delta)
    requires Carries(f, d) && Carries(g, e) && Carries(h, k)
    ensures AllCarry(Carries, [f, g, h], [d, e, k])
  {
  }

  lemma ToolBlockCarries(idx: int, id: string, c: ToolCall)
    ensures AllCarry(Carries, ToolBlock(idx, id, c), ToolBlockDeltas(idx, c))
  {
    var args := CanonArgs(c.args);
    BlockFramesCarry(idx, id, c.name, args);
    CloseCarries(idx);
    CarryThree(OpenTool(idx, id, c.name), ArgsDelta(idx, args), CloseBlock(idx),
      BlockStart(idx, "tool_use", c.name), BlockDelta(idx, "input_json_delta", "", args), Ignored);
  }

  lemma {:induction false} ToolsCarry(idx: int, ids: seq<string>, calls: seq<ToolCall>)
    requires |ids| == |calls|
    ensures AllCarry(Carries, ToolBlocks(idx, ids, calls), ToolDeltas(idx, calls))
    decreases |calls|
  {
    if calls != [] {
      ToolBlockCarries(idx, ids[0], calls[0]);
      ToolsCarry(idx + 1, ids[1..], calls[1..]);
      CarryAppend(Carries, ToolBlock(idx, ids[0], calls[0]), ToolBlockDeltas(idx, calls[0]),
        ToolBlocks(idx + 1, ids[1..], calls[1..]), ToolDeltas(idx + 1, calls[1..]));
    }
  }

  function StreamDeltas(chunks: seq<string>, calls: seq<ToolCall>, finish: string): seq<Delta> {
    [Ignored] + TextBlockDeltas(chunks) + ToolDeltas(if chunks == [] then 0 else 1, calls)
    + [MessageDelta(finish)] + [Ignored]
  }

  lemma StreamCarries(env: Envelope, chunks: seq<string>, ids: seq<string>, calls: seq<ToolCall>, finish: string)
    requires |ids| == |calls|
    ensures AllCarry(Carries, Stream(env, chunks, ids, calls, finish), StreamDeltas(chunks, calls, finish))
  {
    var first := if chunks == [] then 0 else 1;
    StartCarries(env);
    CarryOne(Carries, StartFrame(env), Ignored);
    EndCarries(finish, env);
    CarryOne(Carries, EndFrame(finish, env), MessageDelta(finish));
    StopCarries();
    CarryOne(Carries, STOP, Ignored);
    TextBlockCarries(chunks);
    ToolsCarry(first, ids, calls);
    var f1, d1 := [StartFrame(env)] + TextBlock(chunks), [Ignored] + TextBlockDeltas(chunks);
    CarryAppend(Carries, [StartFrame(env)], [Ignored], TextBlock(chunks), TextBlockDeltas(chunks));
    var f2, d2 := f1 + ToolBlocks(first, ids, calls), d1 + ToolDeltas(first, calls);
    CarryAppend(Carries, f1, d1, ToolBlocks(first, ids, calls), ToolDeltas(first, calls));
    CarryAppend(Carries, f2, d2, [EndFrame(finish, env)], [MessageDelta(finish)]);
    CarryAppend(Carries, f2 + [EndFrame(finish, env)], d2 + [MessageDelta(finish)], [STOP], [Ignored]);
  }

  // ---------------------------------------------------------------- deltas to blocks

  lemma {:induction false} TextsSnoc(order: seq<int>, blocks: map<int, Block>, i: int, b: Block)
    requires i !in order
    ensures BlockTexts(order + [i], blocks[i := b]) == BlockTexts(order, blocks) + (if b.typ == "text" then b.text else "")
  {
    if order == [] {
      assert order + [i] == [i] && [i][1..] == [];
    } else {
      assert (order + [i])[1..] == order[1..] + [i];
      TextsSnoc(order[1..], blocks, i, b);
    }
  }

  lemma {:induction false} CallsSnoc(order: seq<int>, blocks: map<int, Block>, i: int, b: Block)
    requires i !in order
    ensures BlockCalls(order + [i], blocks[i := b])
         == BlockCalls(order, blocks) + (if b.typ == "tool_use" then [ToolCall(b.name, CanonArgs(b.args))] else [])
  {
    if order == [] {
      assert order + [i] == [i] && [i][1..] == [];
    } else {
      assert (order + [i])[1..] == order[1..] + [i];
      CallsSnoc(order[1..], blocks, i, b);
    }
  }

  lemma BlocksSnoc(order: seq<int>, blocks: map<int, Block>, i: int, b: Block)
    requires i !in order
    ensures BlockTexts(order + [i], blocks[i := b]) == BlockTexts(order, blocks) + (if b.typ == "text" then b.text else "")
    ensures BlockCalls(order + [i], blocks[i := b])
         == BlockCalls(order, blocks) + (if b.typ == "tool_use" then [ToolCall(b.name, CanonArgs(b.args))] else [])
  {
    TextsSnoc(order, blocks, i, b);
    CallsSnoc(order, blocks, i, b);
  }

  lemma {:induction false} ChunksApplied(st: State, idx: int, chunks: seq<string>)
    requires idx in st.blocks
    ensures Fold(Apply, st, ChunkDeltas(idx, chunks))
         == st.(blocks := st.blocks[idx := st.blocks[idx].(text := st.blocks[idx].text + Join(chunks))])
    decreases |chunks|
  {
    var b := st.blocks[idx];
    if chunks == [] {
      assert b.(text := b.text + "") == b;
      assert st.blocks[idx := b] == st.blocks;
    } else {
      var next := Apply(st, BlockDelta(idx, "text_delta", chunks[0], ""));
      assert next == st.(blocks := st.blocks[idx := b.(text := b.text + chunks[0])]);
      ChunksApplied(next, idx, chunks[1..]);
      Assoc(b.text, chunks[0], Join(chunks[1..]));
      assert ChunkDeltas(idx, chunks)[1..] == ChunkDeltas(idx, chunks[1..]);
    }
  }

  lemma OpenApplied()
    ensures Fold(Apply, START, [Ignored] + [BlockStart(0, "text", "")])
         == State(map[0 := Block("text", "", "", "")], [0], "", false)
  {
    FoldAppend(Apply, START, [Ignored], [BlockStart(0, "text", "")]);
    assert [Ignored][1..] == [] && [BlockStart(0, "text", "")][1..] == [];
  }

  lemma TextBlockApplied(chunks: seq<string>)
    ensures var st := Fold(Apply, START, [Ignored] + TextBlockDeltas(chunks));
      st == if chunks == [] then START else State(map[0 := Block("text", "", Join(chunks), "")], [0], "", false)
  {
    if chunks == [] {
      assert [Ignored] + TextBlockDeltas(chunks) == [Ignored] && [Ignored][1..] == [];
    } else {
      var open := State(map[0 := Block("text", "", "", "")], [0], "", false);
      var head, mid := [Ignored] + [BlockStart(0, "text", "")], ChunkDeltas(0, chunks);
      OpenApplied();
      Assoc([Ignored], [BlockStart(0, "text", "")], mid);
      Assoc([Ignored], [BlockStart(0, "text", "")] + mid, [Ignored]);
      FoldAppend(Apply, START, head, mid);
      ChunksApplied(open, 0, chunks);
      FoldAppend(Apply, START, head + mid, [Ignored]);
      assert [Ignored][1..] == [];
      assert "" + Join(chunks) == Join(chunks);
      assert map[0 := Block("text", "", "", "")][0 := Block("text", "", Join(chunks), "")]
          == map[0 := Block("text", "", Join(chunks), "")];
    }
  }

  lemma ApplyThree(st: State, a: Delta, b: Delta, c: Delta)
    ensures Fold(Apply, st, [a, b, c]) == Apply(Apply(Apply(st, a), b), c)
  {
    assert [a, b, c][1..] == [b, c] && [b, c][1..] == [c] && [c][1..] == [];
    var st1, st2 := Apply(st, a), Apply(Apply(st, a), b);
    assert Fold(Apply, st2, [c]) == Apply(st2, c);
    assert Fold(Apply, st1, [b, c]) == Fold(Apply, st2, [c]);
  }

  lemma ToolApplied(st: State, idx: int, c: ToolCall)
    ensures Fold(Apply, st, ToolBlockDeltas(idx, c))
         == st.(blocks := st.blocks[idx := Block("tool_use", c.name, "", CanonArgs(c.args))], order := st.order + [idx])
  {
    var args := CanonArgs(c.args);
    ApplyThree(st, BlockStart(idx, "tool_use", c.name), BlockDelta(idx, "input_json_delta", "", args), Ignored);
    assert "" + args == args;
    assert "input_json_delta" != "text_delta" by { assert |"input_json_delta"| != |"text_delta"|; }
    assert st.blocks[idx := Block("tool_use", c.name, "", "")][idx := Block("tool_use", c.name, "", args)]
        == st.blocks[idx := Block("tool_use", c.name, "", args)];
  }

  lemma {:induction false} ToolsApplied(st: State, idx: int, calls: seq<ToolCall>)
    requires forall i <- st.order :: i < idx
    ensures var r := Fold(Apply, st, ToolDeltas(idx, calls));
      && r.finish == st.finish && r.failed == st.failed
      && BlockTexts(r.order, r.blocks) == BlockTexts(st.order, st.blocks)
      && BlockCalls(r.order, r.blocks) == BlockCalls(st.order, st.blocks) + MapSeq(CanonCall, calls)
    decreases |calls|
  {
    if calls != [] {
      var b := Block("tool_use", calls[0].name, "", CanonArgs(calls[0].args));
      var next := st.(blocks := st.blocks[idx := b], order := st.order + [idx]);
      ToolApplied(st, idx, calls[0]);
      FoldAppend(Apply, st, ToolBlockDeltas(idx, calls[0]), ToolDeltas(idx + 1, calls[1..]));
      BlocksSnoc(st.order, st.blocks, idx, b);
      assert b.typ != "text" by { assert |"tool_use"| != |"text"|; }
      CanonArgsSettles(calls[0].args);
      ToolsApplied(next, idx + 1, calls[1..]);
      Assoc(BlockCalls(st.order, st.blocks), [CanonCall(calls[0])], MapSeq(CanonCall, calls[1..]));
    }
  }

  // ---------------------------------------------------------------- the theorem

  lemma StreamApplied(chunks: seq<string>, calls: seq<ToolCall>, finish: string)
    ensures var st := Fold(Apply, START, StreamDeltas(chunks, calls, finish));
      && st.finish == finish && !st.failed && BlockTexts(st.order, st.blocks) == Join(chunks)
      && BlockCalls(st.order, st.blocks) == MapSeq(CanonCall, calls)
  {
    var head, tail := [Ignored] + TextBlockDeltas(chunks), ToolDeltas(if chunks == [] then 0 else 1, calls);
    TextBlockAssembled(chunks);
    FoldAppend(Apply, START, head, tail);
    ToolsApplied(Fold(Apply, START, head), if chunks == [] then 0 else 1, calls);
    assert [] + MapSeq(CanonCall, calls) == MapSeq(CanonCall, calls);
    EndApplied(START, head + tail, finish);
  }

  lemma EndApplied(st: State, ds: seq<Delta>, finish: string)
    ensures Fold(Apply, st, ds + [MessageDelta(finish)] + [Ignored]) == Apply(Fold(Apply, st, ds), MessageDelta(finish))
  {
    FoldAppend(Apply, st, ds, [MessageDelta(finish)]);
    FoldAppend(Apply, st, ds + [MessageDelta(finish)], [Ignored]);
    assert [MessageDelta(finish)][1..] == [] && [Ignored][1..] == [];
  }

  lemma TextBlockAssembled(chunks: seq<string>)
    ensures var st := Fold(Apply, START, [Ignored] + TextBlockDeltas(chunks));
      && BlockTexts(st.order, st.blocks) == Join(chunks) && BlockCalls(st.order, st.blocks) == []
      && st.finish == "" && !st.failed && (forall i <- st.order :: i < if chunks == [] then 0 else 1)
  {
    TextBlockApplied(chunks);
    var b := Block("text", "", Join(chunks), "");
    BlocksSnoc([], map[], 0, b);
    assert [] + [0] == [0] && "" + Join(chunks) == Join(chunks);
    assert b.typ != "tool_use" by { assert |"tool_use"| != |"text"|; }
  }

  /** Whatever the chunks, the ids and the order of the calls, the stream decodes to the turn they
      came from, arguments made canonical, and without an error. */
  lemma StreamDecodes(env: Envelope, chunks: seq<string>, ids: seq<string>, calls: seq<ToolCall>, finish: string)
    requires |ids| == |calls|
    ensures Decode(Render(Stream(env, chunks, ids, calls, finish)))
         == Decoded(Normalize(Turn("assistant", Join(chunks), MapSeq(CanonCall, calls), finish)), false)
  {
    var fs := Stream(env, chunks, ids, calls, finish);
    StreamCarries(env, chunks, ids, calls, finish);
    CarriedDecodes(fs, StreamDeltas(chunks, calls, finish));
    StreamApplied(chunks, calls, finish);
  }

  lemma CarriedDecodes(fs: seq<Frame>, ds: seq<Delta>)
    requires AllCarry(Carries, fs, ds)
    ensures Decode(Render(fs)) == Decoded(Assemble(Fold(Apply, START, ds)), Fold(Apply, START, ds).failed)
  {
    CarriedDeltas(fs, ds);
    RenderScans(fs);
  }

  /** Encoding then decoding, for every turn and envelope. */
  lemma EncodeDecodes(t: Turn, env: Envelope)
    ensures Decode(Encode(t, env))
         == Decoded(Normalize(Turn("assistant", t.text, MapSeq(CanonCall, t.calls), t.finish)), false)
  {
    var n := Normalize(t);
    SortCallsSettles(t.calls);
    StreamDecodes(env, WholeText(n.text), env.ToolIds(|n.calls|, "toolu_"), n.calls, n.finish);
    assert Join(WholeText(t.text)) == t.text by {
      if t.text != "" { assert [t.text][1..] == [] && t.text + "" == t.text; }
    }
    SortThenMap(CanonCall, t.calls);
  }
}
