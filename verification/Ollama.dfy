/** The Ollama native stream: one JSON object a line, no event framing. Tool arguments are embedded as
    JSON values, so only valid JSON survives. */
module Ollama {
  import opened Lists
  import opened Options
  import opened Json
  import opened Canon
  import opened Records
  import opened Sse
  import opened Transcript
  import opened Envelopes
  import opened RawArgs

  // ---------------------------------------------------------------- decoding

  datatype Line = Line(content: string, calls: seq<ToolCall>, finish: string)

  function ReadCall(v: Value): Option<ToolCall> {
    var f :- FieldsOf(v);
    var fn :- SubIn(f, "function");
    var name :- StrIn(fn, "name");
    Some(ToolCall(name, ArgsIn(fn, "arguments")))
  }

  function ReadFields(f: List<Field>): Option<Line> {
    var message :- SubIn(f, "message");
    var content :- StrIn(message, "content");
    var values :- ListIn(message, "tool_calls");
    var calls :- Each(values, ReadCall);
    var finish :- StrIn(f, "done_reason");
    Some(Line(content, calls, finish))
  }

  /** A blank line, or one that does not decode, is passed over. */
  function ReadLine(raw: string): Option<Line> {
    var line := TrimSpace(raw);
    if line == "" then None
    else
      var v :- ParseDoc(line);
      var f :- FieldsOf(v);
      ReadFields(f)
  }

  datatype Gathered = Gathered(text: string, calls: seq<ToolCall>, finish: string)

  const START := Gathered("", [], "")

  function Apply(st: Gathered, l: Option<Line>): Gathered {
    if l.None? then st
    else Gathered(st.text + l.value.content, st.calls + l.value.calls,
                  if l.value.finish != "" then l.value.finish else st.finish)
  }

  function ApplyAll(st: Gathered, lines: seq<string>): Gathered
    decreases |lines|
  {
    if lines == [] then st else ApplyAll(Apply(st, ReadLine(lines[0])), lines[1..])
  }

  function Decode(raw: string): Turn {
    var st := ApplyAll(START, NdLines(raw));
    Normalize(Turn("assistant", st.text, st.calls, st.finish))
  }

  method DecodeOllamaNDJSON(raw: string) returns (t: Turn)
    ensures t == Decode(raw)
  {
    var text, calls, finish := "", [], "";
    var rest, more := raw, true;
    while more
      invariant ApplyAll(START, NdLines(raw))
             == if more then ApplyAll(Gathered(text, calls, finish), NdLines(rest)) else Gathered(text, calls, finish)
      decreases more, |rest|
    {
      var n := LineLen(rest);
      var l := ReadLine(rest[..n]);
      assert rest[..|rest|] == rest;
      assert NdLines(rest)[1..] == if n < |rest| then NdLines(AfterLine(rest)) else [];
      if l.Some? {
        text := text + l.value.content;
        calls := calls + l.value.calls;
        if l.value.finish != "" { finish := l.value.finish; }
      }
      more := n < |rest|;
      if more { rest := AfterLine(rest); }
    }
    t := Normalize(Turn("assistant", text, calls, finish));
  }

  // ---------------------------------------------------------------- encoding

  function CallValue(c: ToolCall): Value {
    Obj(R1("function", Obj(R2("arguments", ArgsValue(c.args), "name", Str(c.name)))))
  }

  function CallValues(calls: seq<ToolCall>): List<Value> {
    if calls == [] then Nil else Cons(CallValue(calls[0]), CallValues(calls[1..]))
  }

  function MessageFields(t: Turn): List<Field> {
    if t.calls == [] then R2("content", Str(t.text), "role", Str("assistant"))
    else R3("content", Str(t.text), "role", Str("assistant"), "tool_calls", Arr(CallValues(t.calls)))
  }

  function ContentLine(message: List<Field>, env: Envelope): List<Field> {
    R3("done", Bool(false), "message", Obj(message), "model", Str(env.Model()))
  }

  function DoneLine(finish: string, env: Envelope): List<Field> {
    var message := Obj(R2("content", Str(""), "role", Str("assistant")));
    if finish == "" then R3("done", Bool(true), "message", message, "model", Str(env.Model()))
    else R4("done", Bool(true), "done_reason", Str(finish), "message", message, "model", Str(env.Model()))
  }

  function Encode(turn: Turn, env: Envelope): string {
    var t := Normalize(turn);
    Print(Obj(ContentLine(MessageFields(t), env))) + "\n" + Print(Obj(DoneLine(t.finish, env))) + "\n"
  }

  method EncodeOllamaNDJSON(turn: Turn, env: Envelope) returns (b: string)
    ensures b == Encode(turn, env)
  {
    var t := Normalize(turn);
    var values := Nil;
    var i := |t.calls|;
    while i > 0
      invariant 0 <= i <= |t.calls| && values == CallValues(t.calls[i..])
    {
      i := i - 1;
      assert t.calls[i..][1..] == t.calls[i + 1..];
      values := Cons(CallValue(t.calls[i]), values);
    }
    assert t.calls[0..] == t.calls;
    var message := R2("content", Str(t.text), "role", Str("assistant"));
    if |t.calls| > 0 {
      message := R3("content", Str(t.text), "role", Str("assistant"), "tool_calls", Arr(values));
    }
    b := Print(Obj(ContentLine(message, env))) + "\n" + Print(Obj(DoneLine(t.finish, env))) + "\n";
  }

  // ---------------------------------------------------------------- reading back

  lemma CallReads(c: ToolCall)
    ensures ReadCall(CallValue(c)) == Some(RawCall(c)) && Printable(CallValue(c))
  {
    ArgsValueText(c.args);
    var g := R2("arguments", ArgsValue(c.args), "name", Str(c.name));
    assert StrIn(g, "name") == Some(c.name) && ArgsIn(g, "arguments") == RawCall(c).args && PrintableFields(g);
  }

  lemma {:induction false} CallsReadBack(calls: seq<ToolCall>)
    ensures Each(CallValues(calls), ReadCall) == Some(MapSeq(RawCall, calls)) && PrintableItems(CallValues(calls))
  {
    if calls != [] {
      CallReads(calls[0]);
      CallsReadBack(calls[1..]);
    }
  }

  lemma ListedCalls(text: string, items: List<Value>)
    requires PrintableItems(items)
    ensures var m := R3("content", Str(text), "role", Str("assistant"), "tool_calls", Arr(items));
      PrintableFields(m) && StrIn(m, "content") == Some(text) && ListIn(m, "tool_calls") == Some(items)
  {
  }

  lemma MessageReads(t: Turn)
    ensures var m := MessageFields(t);
      && PrintableFields(m) && StrIn(m, "content") == Some(t.text) && ListIn(m, "tool_calls").Some?
      && Each(ListIn(m, "tool_calls").value, ReadCall) == Some(MapSeq(RawCall, t.calls))
  {
    CallsReadBack(t.calls);
    if t.calls != [] { ListedCalls(t.text, CallValues(t.calls)); }
  }

  lemma ContentReads(m: List<Field>, env: Envelope, l: Line)
    requires PrintableFields(m) && StrIn(m, "content") == Some(l.content) && ListIn(m, "tool_calls").Some?
    requires Each(ListIn(m, "tool_calls").value, ReadCall) == Some(l.calls) && l.finish == ""
    ensures ReadFields(ContentLine(m, env)) == Some(l) && PrintableFields(ContentLine(m, env))
  {
  }

  lemma DoneReads(finish: string, env: Envelope)
    ensures ReadFields(DoneLine(finish, env)) == Some(Line("", [], finish)) && PrintableFields(DoneLine(finish, env))
  {
    var m := R2("content", Str(""), "role", Str("assistant"));
    assert PrintableFields(m) && StrIn(m, "content") == Some("") && ListIn(m, "tool_calls") == Some(Nil);
    assert Each(Nil, ReadCall) == Some([]);
  }

  lemma LineReads(f: List<Field>, l: Line)
    requires PrintableFields(f) && ReadFields(f) == Some(l)
    ensures ReadLine(Print(Obj(f))) == Some(l) && Clean(Print(Obj(f)))
  {
    ObjectTrims(f);
    PayloadParses(Obj(f));
    PrintClean(Obj(f));
  }

  lemma TwoLines(a: string, b: string)
    requires Clean(a) && Clean(b)
    ensures NdLines(a + "\n" + b + "\n") == [a, b, ""]
  {
    OneLine(b);
    NdFirst(a, b + "\n");
    Assoc(a + "\n", b, "\n");
    assert [a] + [b, ""] == [a, b, ""];
  }

  lemma OneLine(b: string)
    requires Clean(b)
    ensures NdLines(b + "\n") == [b, ""]
  {
    NdFirst(b, "");
    assert b + "\n" + "" == b + "\n";
    assert NdLines("") == [""];
  }

  lemma TwoLinesApplied(a: string, b: string, l: Line, m: Line)
    requires ReadLine(a) == Some(l) && ReadLine(b) == Some(m)
    ensures ApplyAll(START, [a, b, ""]) == Apply(Apply(START, Some(l)), Some(m))
  {
    assert [a, b, ""][1..] == [b, ""] && [b, ""][1..] == [""] && [""][1..] == [];
    assert ReadLine("") == None;
    var st1, st2 := Apply(START, Some(l)), Apply(Apply(START, Some(l)), Some(m));
    assert ApplyAll(st2, [""]) == st2 && ApplyAll(st1, [b, ""]) == ApplyAll(st2, [""]);
  }

  /** Encoding then decoding, for every turn and envelope: arguments that are not valid JSON come
      back as the empty object. */
  lemma EncodeDecodes(t: Turn, env: Envelope)
    ensures Decode(Encode(t, env)) == Normalize(Turn("assistant", t.text, MapSeq(RawCall, t.calls), t.finish))
  {
    var n := Normalize(t);
    var l, m := Line(n.text, MapSeq(RawCall, n.calls), ""), Line("", [], n.finish);
    MessageReads(n);
    ContentReads(MessageFields(n), env, l);
    DoneReads(n.finish, env);
    LineReads(ContentLine(MessageFields(n), env), l);
    LineReads(DoneLine(n.finish, env), m);
    var a, b := Print(Obj(ContentLine(MessageFields(n), env))), Print(Obj(DoneLine(n.finish, env)));
    TwoLines(a, b);
    TwoLinesApplied(a, b, l, m);
    LinesGather(l, n.finish);
    SortThenMap(RawCall, t.calls);
  }

  lemma LinesGather(l: Line, finish: string)
    requires l.finish == ""
    ensures Apply(Apply(START, Some(l)), Some(Line("", [], finish))) == Gathered(l.content, l.calls, finish)
  {
    assert "" + l.content + "" == l.content && [] + l.calls + [] == l.calls;
  }
}
