/** What lines add up to. */
module OllamaFragments {
  import opened Lists
  import opened Options
  import opened Texts
  import opened Sse
  import opened Transcript
  import opened Ollama

  function ContentOf(l: Option<Line>): string { if l.Some? then l.value.content else "" }

  function CallsIn(l: Option<Line>): seq<ToolCall> { if l.Some? then l.value.calls else [] }

  function FinishOf(l: Option<Line>): string { if l.Some? then l.value.finish else "" }

  function AllCalls(ls: seq<Option<Line>>): seq<ToolCall> {
    if ls == [] then [] else CallsIn(ls[0]) + AllCalls(ls[1..])
  }

  /** The turn some lines spell. */
  function SpelledTurn(lines: seq<string>): Turn {
    var ls := MapSeq(ReadLine, lines);
    Normalize(Turn("assistant", Join(MapSeq(ContentOf, ls)), AllCalls(ls), LastSet(MapSeq(FinishOf, ls))))
  }

  lemma {:induction false} LinesGather(st: Gathered, lines: seq<string>)
    ensures var ls := MapSeq(ReadLine, lines);
      var last := LastSet(MapSeq(FinishOf, ls));
      ApplyAll(st, lines)
      == Gathered(st.text + Join(MapSeq(ContentOf, ls)), st.calls + AllCalls(ls), if last != "" then last else st.finish)
    decreases |lines|
  {
    if lines == [] {
      NothingAdded(st.text);
      NothingAdded(st.calls);
    } else {
      var l, ls := ReadLine(lines[0]), MapSeq(ReadLine, lines[1..]);
      LinesGather(Apply(st, l), lines[1..]);
      NothingAdded(st.text);
      NothingAdded(st.calls);
      Assoc(st.text, ContentOf(l), Join(MapSeq(ContentOf, ls)));
      Assoc(st.calls, CallsIn(l), AllCalls(ls));
      LastSetCons(FinishOf(l), MapSeq(FinishOf, ls));
    }
  }

  /** Any stream decodes to what its lines spell: the contents one after the other, all calls, and the
      last finish reason. */
  lemma DecodesToSpelled(raw: string)
    ensures Decode(raw) == SpelledTurn(NdLines(raw))
  {
    LinesGather(START, NdLines(raw));
    var ls := MapSeq(ReadLine, NdLines(raw));
    NothingAdded(Join(MapSeq(ContentOf, ls)));
    NothingAdded(AllCalls(ls));
  }

  /** The state after a stretch of lines. */
  lemma {:induction false} AppliedAppend(st: Gathered, a: seq<string>, b: seq<string>)
    ensures ApplyAll(st, a + b) == ApplyAll(ApplyAll(st, a), b)
    decreases |a|
  {
    if a == [] {
      assert a + b == b;
    } else {
      assert (a + b)[1..] == a[1..] + b;
      AppliedAppend(Apply(st, ReadLine(a[0])), a[1..], b);
    }
  }

  lemma TwoApplied(st: Gathered, a: string, b: string)
    ensures ApplyAll(st, [a, b]) == Apply(Apply(st, ReadLine(a)), ReadLine(b)) && ApplyAll(st, [a]) == Apply(st, ReadLine(a))
  {
    assert [a, b][1..] == [b] && [b][1..] == [] && [a][1..] == [];
    assert ApplyAll(Apply(st, ReadLine(a)), [b]) == Apply(Apply(st, ReadLine(a)), ReadLine(b));
  }

  /** Cutting a line of any stream in two, its content anywhere and its calls between two of them, leaves
      the decoded turn as it was. */
  lemma SplittingLine(raw: string, other: string, pre: seq<string>, post: seq<string>,
                      whole: string, first: string, second: string, a: Line, b: Line)
    requires NdLines(raw) == pre + [first, second] + post && NdLines(other) == pre + [whole] + post
    requires ReadLine(first) == Some(a) && ReadLine(second) == Some(b) && a.finish == ""
    requires ReadLine(whole) == Some(Line(a.content + b.content, a.calls + b.calls, b.finish))
    ensures Decode(raw) == Decode(other)
  {
    var st := ApplyAll(START, pre);
    AppliedAppend(START, pre + [first, second], post);
    AppliedAppend(START, pre, [first, second]);
    AppliedAppend(START, pre + [whole], post);
    AppliedAppend(START, pre, [whole]);
    TwoApplied(st, first, second);
    TwoApplied(st, whole, whole);
    Assoc(st.text, a.content, b.content);
    Assoc(st.calls, a.calls, b.calls);
  }
}
