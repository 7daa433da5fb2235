/** Encoding then decoding in the Chat Completions dialect: each frame carries one choice, the choices
    rebuild the turn, and the closing marker is passed over. */
module OpenAIRoundTrip {
  import opened Lists
  import opened Options
  import opened Json
  import opened Canon
  import opened Sse
  import opened Transcript
  import opened Envelopes
  import opened ToolTables
  import opened OpenAI

  lemma CarriedFramed(fs: seq<Frame>, cs: seq<Option<Choice>>)
    requires AllCarry(Carries, fs, cs)
    ensures WellFramed(fs)
  {
    forall f | f in fs ensures Clean(f.event) && Printable(f.payload) {
      var i :| 0 <= i < |fs| && fs[i] == f;
      CarriesReads(fs[i], cs[i]);
    }
  }

  lemma ChoicesCons(e: Event, more: seq<Event>)
    ensures Choices([e] + more) == [ReadEvent(e)] + Choices(more)
  {
    assert ([e] + more)[1..] == more;
  }

  lemma {:induction false} CarriedChoices(fs: seq<Frame>, cs: seq<Option<Choice>>, more: seq<Event>)
    requires AllCarry(Carries, fs, cs)
    ensures Choices(FrameEvents(fs) + more) == cs + Choices(more)
  {
    if fs == [] {
      assert FrameEvents(fs) + more == more && cs + Choices(more) == Choices(more);
    } else {
      CarriesReads(fs[0], cs[0]);
      CarriedChoices(fs[1..], cs[1..], more);
      var e := Event(fs[0].event, Print(fs[0].payload) + "\n");
      Assoc([e], FrameEvents(fs[1..]), more);
      ChoicesCons(e, FrameEvents(fs[1..]) + more);
      assert cs == [cs[0]] + cs[1..];
      Assoc([cs[0]], cs[1..], Choices(more));
    }
  }

  lemma DataOnly(d: string)
    requires Clean(d)
    ensures Events(DataText(d)) == [Event("", d + "\n")]
  {
    FrameLinesScan("", d, "");
    assert FrameText("", d) + "" == DataText(d);
    FrameDispatches("", d, []);
    assert FrameLines("", d) + [] == FrameLines("", d);
  }

  lemma DoneIgnored(mark: string)
    requires mark == "[DONE]"
    ensures Clean(mark) && Choices([Event("", mark + "\n")]) == [None]
  {
    var d := mark + "\n";
    var e := Event("", d);
    assert d[0] == '[' && TrimLeft(d) == d;
    assert d[..6] == mark && d[6] == '\n' && mark[5] == ']';
    assert TrimRight(mark) == mark && TrimRight(d) == mark;
    assert ReadEvent(e) == None;
    assert [e][1..] == [];
  }

  function Part(p: ToolPart): Option<Choice> {
    Some(Choice("", [p], ""))
  }

  function ToolChoices(i: int, calls: seq<ToolCall>): seq<Option<Choice>>
    decreases |calls|
  {
    if calls == [] then []
    else
      ([Part(ToolPart(i, calls[0].name, ""))] + [Part(ToolPart(i, "", CanonArgs(calls[0].args)))])
      + ToolChoices(i + 1, calls[1..])
  }

  lemma OpenFrameCarries(env: Envelope, i: int, id: string, name: string)
    ensures Carries(OpenFrame(env, i, id, name), Part(ToolPart(i, name, "")))
  {
    OpenReads(i, id, name);
    ToolCarries(env, OpenValue(i, id, name), ToolPart(i, name, ""));
  }

  lemma ArgsFrameCarries(env: Envelope, i: int, args: string)
    ensures Carries(ArgsFrame(env, i, args), Part(ToolPart(i, "", args)))
  {
    ArgsReads(i, args);
    ToolCarries(env, ArgsValueAt(i, args), ToolPart(i, "", args));
  }

  lemma ToolFrameCarries(env: Envelope, i: int, id: string, c: ToolCall)
    ensures AllCarry(Carries, ToolFrame(env, i, id, c), [Part(ToolPart(i, c.name, ""))] + [Part(ToolPart(i, "", CanonArgs(c.args)))])
  {
    OpenFrameCarries(env, i, id, c.name);
    ArgsFrameCarries(env, i, CanonArgs(c.args));
    CarryTwo(Carries, OpenFrame(env, i, id, c.name), ArgsFrame(env, i, CanonArgs(c.args)),
      Part(ToolPart(i, c.name, "")), Part(ToolPart(i, "", CanonArgs(c.args))));
  }

  lemma {:induction false} ToolsCarry(env: Envelope, i: int, ids: seq<string>, calls: seq<ToolCall>)
    requires |ids| == |calls|
    ensures AllCarry(Carries, ToolFrames(env, i, ids, calls), ToolChoices(i, calls))
    decreases |calls|
  {
    if calls != [] {
      var open, args := ToolPart(i, calls[0].name, ""), ToolPart(i, "", CanonArgs(calls[0].args));
      ToolFrameCarries(env, i, ids[0], calls[0]);
      ToolsCarry(env, i + 1, ids[1..], calls[1..]);
      CarryAppend(Carries, ToolFrame(env, i, ids[0], calls[0]), [Part(open)] + [Part(args)],
        ToolFrames(env, i + 1, ids[1..], calls[1..]), ToolChoices(i + 1, calls[1..]));
    }
  }

  lemma PartApplied(st: State, p: ToolPart)
    ensures Apply(st, Part(p)) == st.(table := AddPart(st.table, p))
  {
    assert [p][1..] == [] && st.text + "" == st.text;
    assert AddParts(AddPart(st.table, p), []) == AddPart(st.table, p);
  }

  lemma ToolApplied(st: State, i: int, c: ToolCall)
    requires i !in st.table.tools
    ensures Fold(Apply, st, [Part(ToolPart(i, c.name, ""))] + [Part(ToolPart(i, "", CanonArgs(c.args)))])
         == st.(table := Table(st.table.tools[i := Acc(c.name, CanonArgs(c.args))], st.table.order + [i]))
  {
    var open, args := ToolPart(i, c.name, ""), ToolPart(i, "", CanonArgs(c.args));
    var st1 := Apply(st, Part(open));
    PartApplied(st, open);
    PartApplied(st1, args);
    FoldAppend(Apply, st, [Part(open)], [Part(args)]);
    assert [Part(open)][1..] == [] && [Part(args)][1..] == [];
    assert "" + "" == "" && "" + args.args == args.args;
    assert st.table.tools[i := Acc(c.name, "")][i := Acc(c.name, args.args)] == st.table.tools[i := Acc(c.name, args.args)];
  }

  lemma {:induction false} ToolsApplied(st: State, i: int, calls: seq<ToolCall>)
    requires forall k <- st.table.order :: k < i
    requires forall k <- st.table.tools :: k < i
    ensures var r := Fold(Apply, st, ToolChoices(i, calls));
      && r.finish == st.finish && r.text == st.text
      && Calls(r.table.order, r.table.tools) == Calls(st.table.order, st.table.tools) + MapSeq(CanonCall, calls)
    decreases |calls|
  {
    if calls != [] {
      var a := Acc(calls[0].name, CanonArgs(calls[0].args));
      var one := [Part(ToolPart(i, calls[0].name, ""))] + [Part(ToolPart(i, "", CanonArgs(calls[0].args)))];
      ToolApplied(st, i, calls[0]);
      FoldAppend(Apply, st, one, ToolChoices(i + 1, calls[1..]));
      CallsSnoc(st.table.order, st.table.tools, i, a);
      CanonArgsSettles(calls[0].args);
      ToolsApplied(Fold(Apply, st, one), i + 1, calls[1..]);
      Assoc(Calls(st.table.order, st.table.tools), [CanonCall(calls[0])], MapSeq(CanonCall, calls[1..]));
    }
  }

  function TurnChoices(t: Turn, env: Envelope): seq<Option<Choice>> {
    [Some(Choice("", [], ""))] + (if t.text == "" then [] else [Some(Choice(t.text, [], ""))])
    + ToolChoices(0, t.calls) + [Some(Choice("", [], t.finish))] + (if UsageFrames(env) == [] then [] else [None])
  }

  lemma FramesCarry(t: Turn, env: Envelope)
    ensures AllCarry(Carries, Frames(t, env), TurnChoices(t, env))
  {
    var ids := env.ToolIds(|t.calls|, "call_");
    RoleCarries(env);
    TextCarries(env, t.text);
    CarryOne(Carries, RoleFrame(env), Some(Choice("", [], "")));
    CarryOne(Carries, TextFrame(env, t.text), Some(Choice(t.text, [], "")));
    FinishCarries(env, t.finish);
    CarryOne(Carries, FinishFrame(env, t.finish), Some(Choice("", [], t.finish)));
    ToolsCarry(env, 0, ids, t.calls);
    var f1, c1 := if t.text == "" then [] else [TextFrame(env, t.text)],
                  if t.text == "" then [] else [Some(Choice(t.text, [], ""))];
    CarryAppend(Carries, [RoleFrame(env)], [Some(Choice("", [], ""))], f1, c1);
    var f2, c2 := [RoleFrame(env)] + f1, [Some(Choice("", [], ""))] + c1;
    CarryAppend(Carries, f2, c2, ToolFrames(env, 0, ids, t.calls), ToolChoices(0, t.calls));
    var f3, c3 := f2 + ToolFrames(env, 0, ids, t.calls), c2 + ToolChoices(0, t.calls);
    CarryAppend(Carries, f3, c3, [FinishFrame(env, t.finish)], [Some(Choice("", [], t.finish))]);
    var f4, c4 := f3 + [FinishFrame(env, t.finish)], c3 + [Some(Choice("", [], t.finish))];
    if UsageFrames(env) != [] {
      UsageCarries(env);
      CarryOne(Carries, UsageFrames(env)[0], None);
      assert UsageFrames(env) == [UsageFrames(env)[0]];
      CarryAppend(Carries, f4, c4, UsageFrames(env), [None]);
    } else {
      CarryAppend(Carries, f4, c4, [], []);
    }
  }

  lemma {:induction false} NonesApplied(st: State, cs: seq<Option<Choice>>)
    requires forall k | 0 <= k < |cs| :: cs[k] == None
    ensures Fold(Apply, st, cs) == st
  {
    if cs != [] { NonesApplied(st, cs[1..]); }
  }

  lemma ChoiceApplied(st: State, c: Option<Choice>)
    ensures Fold(Apply, st, [c]) == Apply(st, c)
  {
    assert [c][1..] == [];
  }

  /** The role and the text. */
  lemma HeadApplied(text: string)
    ensures Fold(Apply, START, [Some(Choice("", [], ""))] + (if text == "" then [] else [Some(Choice(text, [], ""))]))
         == State(text, EMPTY, "")
  {
    var c1 := if text == "" then [] else [Some(Choice(text, [], ""))];
    ChoiceApplied(START, Some(Choice("", [], "")));
    FoldAppend(Apply, START, [Some(Choice("", [], ""))], c1);
    if text != "" { ChoiceApplied(START, Some(Choice(text, [], ""))); }
    NothingAdded("");
    NothingAdded(text);
  }

  /** The finish reason, and chunks without a choice. */
  lemma TailApplied(st: State, finish: string, nones: seq<Option<Choice>>)
    requires forall k | 0 <= k < |nones| :: nones[k] == None
    ensures Fold(Apply, st, [Some(Choice("", [], finish))] + nones)
         == State(st.text, st.table, if finish != "" then finish else st.finish)
  {
    FoldAppend(Apply, st, [Some(Choice("", [], finish))], nones);
    ChoiceApplied(st, Some(Choice("", [], finish)));
    NothingAdded(st.text);
    NonesApplied(Apply(st, Some(Choice("", [], finish))), nones);
  }

  lemma TurnApplied(t: Turn, env: Envelope)
    ensures Assemble(Fold(Apply, START, TurnChoices(t, env) + [None]))
         == Normalize(Turn("assistant", t.text, MapSeq(CanonCall, t.calls), t.finish))
  {
    var c1 := if t.text == "" then [] else [Some(Choice(t.text, [], ""))];
    var head, tools := [Some(Choice("", [], ""))] + c1, ToolChoices(0, t.calls);
    var usage := if UsageFrames(env) == [] then [] else [None];
    var finish := [Some(Choice("", [], t.finish))];
    HeadApplied(t.text);
    FoldAppend(Apply, START, head, tools);
    ToolsApplied(State(t.text, EMPTY, ""), 0, t.calls);
    NothingAdded(MapSeq(CanonCall, t.calls));
    Assoc(head + tools + finish, usage, [None]);
    Assoc(head + tools, finish, usage + [None]);
    FoldAppend(Apply, START, head + tools, finish + (usage + [None]));
    TailApplied(Fold(Apply, START, head + tools), t.finish, usage + [None]);
  }

  lemma DoneEvents(done: string, mark: string)
    requires done == DataText(mark) && Clean(mark) && Choices([Event("", mark + "\n")]) == [None]
    ensures Choices(Events(done)) == [None]
  {
    DataOnly(mark);
  }

  lemma CarriedDecodes(fs: seq<Frame>, cs: seq<Option<Choice>>, done: string)
    requires AllCarry(Carries, fs, cs) && done == DONE
    ensures Decode(Render(fs) + done) == Assemble(Fold(Apply, START, cs + [None]))
  {
    CarriedFramed(fs, cs);
    CarriedChoices(fs, cs, Events(done));
    RenderScansBefore(fs, done);
    DoneIgnored("[DONE]");
    DoneEvents(done, "[DONE]");
  }

  /** Encoding then decoding, for every turn and envelope. */
  lemma EncodeDecodes(t: Turn, env: Envelope)
    ensures Decode(Encode(t, env)) == Normalize(Turn("assistant", t.text, MapSeq(CanonCall, t.calls), t.finish))
  {
    var n := Normalize(t);
    FramesCarry(n, env);
    CarriedDecodes(Frames(n, env), TurnChoices(n, env), DONE);
    TurnApplied(n, env);
    SortThenMap(CanonCall, t.calls);
  }
}
