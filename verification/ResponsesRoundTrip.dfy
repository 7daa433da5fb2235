/** Encoding then decoding in the Responses dialect: each frame carries one act, and the acts rebuild the
    turn whatever ids the envelope supplies. */
module ResponsesRoundTrip {
  import opened Lists
  import opened Json
  import opened Canon
  import opened Sse
  import opened Records
  import opened Transcript
  import opened Envelopes
  import opened ToolTables
  import opened Responses

  lemma ActsFirst(e: Event, rest: seq<Event>)
    ensures Acts([e] + rest) == [ReadEvent(e)] + Acts(rest)
  {
    assert ([e] + rest)[1..] == rest;
  }

  lemma {:induction false} CarriedActs(fs: seq<Frame>, acts: seq<Act>)
    requires AllCarry(Carries, fs, acts)
    ensures WellFramed(fs) && Acts(FrameEvents(fs)) == acts
  {
    if fs != [] {
      CarriesReads(fs[0], acts[0]);
      CarriedActs(fs[1..], acts[1..]);
      FramesFirst(fs[0], fs[1..]);
      ActsFirst(Event(fs[0].event, Print(fs[0].payload) + "\n"), FrameEvents(fs[1..]));
      assert fs == [fs[0]] + fs[1..] && acts == [acts[0]] + acts[1..];
    }
  }

  function TextActs(text: string): seq<Act> {
    if text == "" then [] else [Skip] + [AddText(text)]
  }

  function ToolActs(idx: int, calls: seq<ToolCall>): seq<Act>
    decreases |calls|
  {
    if calls == [] then []
    else ([Open(idx, calls[0].name)] + [AddArgs(idx, CanonArgs(calls[0].args))]) + ToolActs(idx + 1, calls[1..])
  }

  lemma TextFramesCarry(text: string)
    ensures AllCarry(Carries, TextFrames(text), TextActs(text))
  {
    MessageCarries();
    TextCarries(text, "msg_0", 0);
    CarryTwo(Carries, ItemFrame(MessageItem(), 0), DeltaFrame(TEXT, text, "msg_0", 0), Skip, AddText(text));
  }

  lemma ToolFrameCarries(env: Envelope, i: nat, idx: int, c: ToolCall)
    ensures AllCarry(Carries, ToolFrame(env, i, idx, c), [Open(idx, c.name)] + [AddArgs(idx, CanonArgs(c.args))])
  {
    var id := env.ToolId(i, "fc_");
    CallCarries(id, "call_" + NatText(i), c.name, idx);
    ArgsCarries(CanonArgs(c.args), id, idx);
    CarryTwo(Carries, ItemFrame(CallItem(id, "call_" + NatText(i), c.name), idx), DeltaFrame(ARGS, CanonArgs(c.args), id, idx),
      Open(idx, c.name), AddArgs(idx, CanonArgs(c.args)));
  }

  lemma {:induction false} ToolsCarry(env: Envelope, i: nat, idx: int, calls: seq<ToolCall>)
    ensures AllCarry(Carries, ToolFrames(env, i, idx, calls), ToolActs(idx, calls))
    decreases |calls|
  {
    if calls != [] {
      ToolFrameCarries(env, i, idx, calls[0]);
      ToolsCarry(env, i + 1, idx + 1, calls[1..]);
      CarryAppend(Carries, ToolFrame(env, i, idx, calls[0]), [Open(idx, calls[0].name)] + [AddArgs(idx, CanonArgs(calls[0].args))],
        ToolFrames(env, i + 1, idx + 1, calls[1..]), ToolActs(idx + 1, calls[1..]));
    }
  }

  function TurnActs(t: Turn): seq<Act> {
    [Skip] + TextActs(t.text) + ToolActs(if t.text == "" then 0 else 1, t.calls) + [Finish(t.finish)]
  }

  lemma FramesCarry(t: Turn, env: Envelope)
    ensures AllCarry(Carries, Frames(t, env), TurnActs(t))
  {
    var first := if t.text == "" then 0 else 1;
    CreatedCarries(env);
    CarryOne(Carries, CreatedFrame(env), Skip);
    CompletedCarries(env, t.finish);
    CarryOne(Carries, CompletedFrame(env, t.finish), Finish(t.finish));
    TextFramesCarry(t.text);
    ToolsCarry(env, 0, first, t.calls);
    CarryAppend(Carries, [CreatedFrame(env)], [Skip], TextFrames(t.text), TextActs(t.text));
    var fs, acts := [CreatedFrame(env)] + TextFrames(t.text), [Skip] + TextActs(t.text);
    CarryAppend(Carries, fs, acts, ToolFrames(env, 0, first, t.calls), ToolActs(first, t.calls));
    CarryAppend(Carries, fs + ToolFrames(env, 0, first, t.calls), acts + ToolActs(first, t.calls),
      [CompletedFrame(env, t.finish)], [Finish(t.finish)]);
  }

  lemma TwoApplied(st: State, a: Act, b: Act)
    ensures Fold(Apply, st, [a]) == Apply(st, a)
    ensures Fold(Apply, st, [a] + [b]) == Apply(Apply(st, a), b)
  {
    FoldAppend(Apply, st, [a], [b]);
    assert [a][1..] == [] && [b][1..] == [];
  }

  lemma {:induction false} ToolsApplied(st: State, idx: int, calls: seq<ToolCall>)
    requires forall k <- st.table.order :: k < idx
    ensures var r := Fold(Apply, st, ToolActs(idx, calls));
      && r.finish == st.finish && r.text == st.text
      && Calls(r.table.order, r.table.tools) == Calls(st.table.order, st.table.tools) + MapSeq(CanonCall, calls)
    decreases |calls|
  {
    if calls != [] {
      var args := CanonArgs(calls[0].args);
      var a := Acc(calls[0].name, args);
      var one := [Open(idx, calls[0].name)] + [AddArgs(idx, args)];
      TwoApplied(st, Open(idx, calls[0].name), AddArgs(idx, args));
      assert "" + args == args;
      assert st.table.tools[idx := Acc(calls[0].name, "")][idx := a] == st.table.tools[idx := a];
      FoldAppend(Apply, st, one, ToolActs(idx + 1, calls[1..]));
      CallsSnoc(st.table.order, st.table.tools, idx, a);
      CanonArgsSettles(calls[0].args);
      ToolsApplied(Fold(Apply, st, one), idx + 1, calls[1..]);
      Assoc(Calls(st.table.order, st.table.tools), [CanonCall(calls[0])], MapSeq(CanonCall, calls[1..]));
    }
  }

  lemma HeadApplied(text: string)
    ensures Fold(Apply, START, [Skip] + TextActs(text)) == State(text, EMPTY, "")
  {
    TwoApplied(START, Skip, Skip);
    FoldAppend(Apply, START, [Skip], TextActs(text));
    TwoApplied(START, Skip, AddText(text));
    NothingAdded(text);
  }

  lemma TurnApplied(t: Turn)
    ensures Assemble(Fold(Apply, START, TurnActs(t)))
         == Normalize(Turn("assistant", t.text, MapSeq(CanonCall, t.calls), t.finish))
  {
    var first := if t.text == "" then 0 else 1;
    var head := [Skip] + TextActs(t.text);
    HeadApplied(t.text);
    FoldAppend(Apply, START, head, ToolActs(first, t.calls));
    ToolsApplied(State(t.text, EMPTY, ""), first, t.calls);
    NothingAdded(MapSeq(CanonCall, t.calls));
    FoldAppend(Apply, START, head + ToolActs(first, t.calls), [Finish(t.finish)]);
    TwoApplied(Fold(Apply, START, head + ToolActs(first, t.calls)), Finish(t.finish), Skip);
  }

  lemma CarriedDecodes(fs: seq<Frame>, acts: seq<Act>)
    requires AllCarry(Carries, fs, acts)
    ensures Decode(Render(fs)) == Assemble(Fold(Apply, START, acts))
  {
    CarriedActs(fs, acts);
    RenderScans(fs);
  }

  /** Encoding then decoding, for every turn and envelope. */
  lemma EncodeDecodes(t: Turn, env: Envelope)
    ensures Decode(Encode(t, env)) == Normalize(Turn("assistant", t.text, MapSeq(CanonCall, t.calls), t.finish))
  {
    var n := Normalize(t);
    FramesCarry(n, env);
    CarriedDecodes(Frames(n, env), TurnActs(n));
    TurnApplied(n);
    SortThenMap(CanonCall, t.calls);
  }
}
