/** Arguments that travel as JSON values instead of strings: how they are read back. The dialects that
    embed arguments cannot carry a text that is not valid JSON. */
module RawArgs {
  import opened Lists
  import opened Options
  import opened Json
  import opened Canon
  import opened Transcript

  /** The arguments found under a key: their canonical text, nothing when the key is missing. */
  function ArgsIn(fields: List<Field>, key: string): string {
    var v := Lookup(fields, key);
    if v.Some? then Print(Norm(v.value)) else ""
  }

  /** Calls whose arguments are valid JSON in canonical form are embedded without loss. */
  lemma RawCallKeepsIff(c: ToolCall)
    ensures RawCall(c) == c <==> Canonicalize(c.args) == Some(c.args)
  {
    ArgsValueText(c.args);
    if Canonicalize(c.args).None? {
      CanonicalValue(Obj(Nil));
      assert Print(Norm(Obj(Nil))) == "{}";
    }
  }
}

/** The Gemini stream: whole response objects, framed as events or as one streamed array. */
module Gemini {
  import opened Lists
  import opened Options
  import opened Json
  import opened Canon
  import opened Records
  import opened Scanner
  import opened Sse
  import opened Transcript
  import opened Envelopes
  import opened RawArgs

  // ---------------------------------------------------------------- decoding

  /** A content part: its text, whether it is thinking, and the call it makes, if any. */
  datatype Part = Part(text: string, thought: bool, call: Option<ToolCall>)

  datatype Candidate = Candidate(parts: seq<Part>, finish: string)

  function ReadCall(f: List<Field>): Option<Option<ToolCall>> {
    match Lookup(f, "functionCall")
    case None => Some(None)
    case Some(Null) => Some(None)
    case Some(Obj(g)) =>
      var name :- StrIn(g, "name");
      Some(Some(ToolCall(name, ArgsIn(g, "args"))))
    case Some(_) => None
  }

  function ReadPart(v: Value): Option<Part> {
    var f :- FieldsOf(v);
    var text :- StrIn(f, "text");
    var thought :- BoolIn(f, "thought");
    var call :- ReadCall(f);
    Some(Part(text, thought, call))
  }

  function ReadCandidate(v: Value): Option<Candidate> {
    var f :- FieldsOf(v);
    var content :- SubIn(f, "content");
    var values :- ListIn(content, "parts");
    var parts :- Each(values, ReadPart);
    var finish :- StrIn(f, "finishReason");
    Some(Candidate(parts, finish))
  }

  function ReadFields(f: List<Field>): Option<Candidate> {
    var values :- ListIn(f, "candidates");
    var read :- Each(values, ReadCandidate);
    if read == [] then None else Some(read[0])
  }

  function ReadObject(o: string): Option<Candidate> {
    var v :- ParseDoc(o);
    var f :- FieldsOf(v);
    ReadFields(f)
  }

  datatype Gathered = Gathered(text: string, calls: seq<ToolCall>, finish: string)

  const START := Gathered("", [], "")

  function AddPart(st: Gathered, p: Part): Gathered {
    if p.call.Some? then st.(calls := st.calls + [p.call.value])
    else if p.text != "" && !p.thought then st.(text := st.text + p.text)
    else st
  }

  function AddParts(st: Gathered, ps: seq<Part>): Gathered
    decreases |ps|
  {
    if ps == [] then st else AddParts(AddPart(st, ps[0]), ps[1..])
  }

  function Apply(st: Gathered, c: Option<Candidate>): Gathered {
    if c.None? then st
    else
      var r := AddParts(st, c.value.parts);
      if c.value.finish != "" then r.(finish := c.value.finish) else r
  }

  function ApplyAll(st: Gathered, objs: seq<string>): Gathered
    decreases |objs|
  {
    if objs == [] then st else ApplyAll(Apply(st, ReadObject(objs[0])), objs[1..])
  }

  function EventObjects(events: seq<Event>): seq<string> {
    if events == [] then []
    else
      var d := TrimSpace(events[0].data);
      (if d == "" then [] else [d]) + EventObjects(events[1..])
  }

  predicate ArrayFramed(raw: string) {
    var t := Skip(raw);
    t != "" && t[0] == '['
  }

  function ObjectsOf(raw: string): seq<string> {
    if ArrayFramed(raw) then SplitObjects(raw) else EventObjects(Events(raw))
  }

  function DecodeObjects(objs: seq<string>): Turn {
    var st := ApplyAll(START, objs);
    Normalize(Turn("assistant", st.text, st.calls, st.finish))
  }

  function Decode(raw: string): Turn {
    DecodeObjects(ObjectsOf(raw))
  }

  predicate Collected(events: seq<Event>, k: nat, objs: seq<string>) {
    k <= |events| && EventObjects(events) == objs + EventObjects(events[k..])
  }

  lemma CollectOne(events: seq<Event>, k: nat, objs: seq<string>)
    requires k < |events| && Collected(events, k, objs)
    ensures var d := TrimSpace(events[k].data); Collected(events, k + 1, if d == "" then objs else objs + [d])
  {
    var d := TrimSpace(events[k].data);
    var rest := EventObjects(events[k + 1..]);
    assert events[k..][1..] == events[k + 1..];
    Assoc(objs, [d], rest);
    assert [] + rest == rest;
  }

  method CollectEventObjects(events: seq<Event>) returns (objs: seq<string>)
    ensures objs == EventObjects(events)
  {
    objs := [];
    var k := 0;
    assert [] + EventObjects(events[0..]) == EventObjects(events);
    while k < |events|
      invariant 0 <= k <= |events| && Collected(events, k, objs)
    {
      CollectOne(events, k, objs);
      var d := TrimSpace(events[k].data);
      if d != "" { objs := objs + [d]; }
      k := k + 1;
    }
    assert objs + [] == objs;
  }

  method CollectObjects(raw: string) returns (objs: seq<string>)
    ensures objs == ObjectsOf(raw)
  {
    if ArrayFramed(raw) {
      objs := SplitTopLevelObjects(raw);
    } else {
      var events := ParseSSE(raw);
      objs := CollectEventObjects(events);
    }
  }

  method AddCandidate(st: Gathered, ps: seq<Part>) returns (text: string, calls: seq<ToolCall>)
    ensures st.(text := text, calls := calls) == AddParts(st, ps)
  {
    text, calls := st.text, st.calls;
    var k := 0;
    while k < |ps|
      invariant 0 <= k <= |ps| && AddParts(st, ps) == AddParts(st.(text := text, calls := calls), ps[k..])
    {
      assert ps[k..][1..] == ps[k + 1..];
      if ps[k].call.Some? {
        calls := calls + [ps[k].call.value];
      } else if ps[k].text != "" && !ps[k].thought {
        text := text + ps[k].text;
      }
      k := k + 1;
    }
  }

  method DecodeGeminiSSE(raw: string) returns (t: Turn)
    ensures t == Decode(raw)
  {
    var objs := CollectObjects(raw);
    var text, calls, finish := "", [], "";
    var k := 0;
    while k < |objs|
      invariant 0 <= k <= |objs| && ApplyAll(START, objs) == ApplyAll(Gathered(text, calls, finish), objs[k..])
    {
      assert objs[k..][1..] == objs[k + 1..];
      var c := ReadObject(objs[k]);
      if c.Some? {
        text, calls := AddCandidate(Gathered(text, calls, finish), c.value.parts);
        if c.value.finish != "" { finish := c.value.finish; }
      }
      k := k + 1;
    }
    t := Normalize(Turn("assistant", text, calls, finish));
  }

  // ---------------------------------------------------------------- encoding

  function CallFields(c: ToolCall): List<Field> {
    R2("args", ArgsValue(c.args), "name", Str(c.name))
  }

  function CallPart(c: ToolCall): Value {
    Obj(R1("functionCall", Obj(CallFields(c))))
  }

  function CallParts(calls: seq<ToolCall>): List<Value> {
    if calls == [] then Nil else Cons(CallPart(calls[0]), CallParts(calls[1..]))
  }

  function TextPart(text: string): Value {
    Obj(R1("text", Str(text)))
  }

  function Parts(t: Turn): List<Value> {
    if t.text == "" then CallParts(t.calls) else Cons(TextPart(t.text), CallParts(t.calls))
  }

  /** No parts at all is a nil slice and prints as null. */
  function ContentFields(t: Turn): List<Field> {
    R2("parts", if Parts(t).Nil? then Null else Arr(Parts(t)), "role", Str("model"))
  }

  function CandidateFields(content: List<Field>, finish: string): List<Field> {
    if finish == "" then R2("content", Obj(content), "index", Int(0))
    else R3("content", Obj(content), "finishReason", Str(finish), "index", Int(0))
  }

  function UsageFields(env: Envelope): List<Field> {
    R2("candidatesTokenCount", Int(env.outputTokens), "promptTokenCount", Int(env.inputTokens))
  }

  function ResponseFields(candidate: Value, env: Envelope, usage: Value): List<Field> {
    R4("candidates", One(candidate), "modelVersion", Str(env.Model()), "responseId", Str(env.MsgId("gemini_0000")),
       "usageMetadata", usage)
  }

  function Response(t: Turn, env: Envelope): List<Field> {
    ResponseFields(Obj(CandidateFields(ContentFields(t), t.finish)), env, Obj(UsageFields(env)))
  }

  function Encode(t: Turn, env: Envelope): string {
    FrameText("", Print(Obj(Response(Normalize(t), env))))
  }

  method EncodeGeminiSSE(turn: Turn, env: Envelope) returns (b: string)
    ensures b == Encode(turn, env)
  {
    var t := Normalize(turn);
    var parts := Nil;
    var i := |t.calls|;
    while i > 0
      invariant 0 <= i <= |t.calls| && parts == CallParts(t.calls[i..])
    {
      i := i - 1;
      assert t.calls[i..][1..] == t.calls[i + 1..];
      parts := Cons(CallPart(t.calls[i]), parts);
    }
    assert t.calls[0..] == t.calls;
    if t.text != "" { parts := Cons(TextPart(t.text), parts); }
    var content := R2("parts", if parts.Nil? then Null else Arr(parts), "role", Str("model"));
    b := FrameText("", Print(Obj(ResponseFields(Obj(CandidateFields(content, t.finish)), env, Obj(UsageFields(env))))));
  }

  // ---------------------------------------------------------------- reading back

  function ReadParts(t: Turn): seq<Part> {
    (if t.text == "" then [] else [Part(t.text, false, None)]) + CallPartsRead(t.calls)
  }

  function CallPartsRead(calls: seq<ToolCall>): seq<Part> {
    if calls == [] then [] else [Part("", false, Some(RawCall(calls[0])))] + CallPartsRead(calls[1..])
  }

  lemma CallFieldsRead(c: ToolCall)
    ensures var g := CallFields(c);
      StrIn(g, "name") == Some(c.name) && ArgsIn(g, "args") == RawCall(c).args && PrintableFields(g)
  {
    ArgsValueText(c.args);
    assert "args"[0] != "name"[0];
  }

  lemma PartWithCall(g: List<Field>, call: ToolCall)
    requires StrIn(g, "name") == Some(call.name) && ArgsIn(g, "args") == call.args && PrintableFields(g)
    ensures var v := Obj(R1("functionCall", Obj(g)));
      ReadPart(v) == Some(Part("", false, Some(call))) && Printable(v)
  {
  }

  lemma CallPartReads(c: ToolCall)
    ensures ReadPart(CallPart(c)) == Some(Part("", false, Some(RawCall(c)))) && Printable(CallPart(c))
  {
    CallFieldsRead(c);
    PartWithCall(CallFields(c), RawCall(c));
  }

  lemma {:induction false} CallPartsReadBack(calls: seq<ToolCall>)
    ensures Each(CallParts(calls), ReadPart) == Some(CallPartsRead(calls)) && PrintableItems(CallParts(calls))
  {
    if calls != [] {
      CallPartReads(calls[0]);
      CallPartsReadBack(calls[1..]);
    }
  }

  lemma TextPartReads(text: string)
    ensures ReadPart(TextPart(text)) == Some(Part(text, false, None)) && Printable(TextPart(text))
  {
  }

  lemma PartsReadBack(t: Turn)
    ensures Each(Parts(t), ReadPart) == Some(ReadParts(t)) && PrintableItems(Parts(t))
  {
    CallPartsReadBack(t.calls);
    TextPartReads(t.text);
    if t.text == "" { assert [] + CallPartsRead(t.calls) == CallPartsRead(t.calls); }
  }

  lemma ContentReads(t: Turn)
    ensures PrintableFields(ContentFields(t)) && ListIn(ContentFields(t), "parts") == Some(Parts(t))
  {
    PartsReadBack(t);
    assert |"parts"| != |"role"|;
  }

  lemma CandidateReads(content: List<Field>, finish: string, values: List<Value>, parts: seq<Part>)
    requires PrintableFields(content) && ListIn(content, "parts") == Some(values) && Each(values, ReadPart) == Some(parts)
    ensures var v := Obj(CandidateFields(content, finish));
      ReadCandidate(v) == Some(Candidate(parts, finish)) && Printable(v)
  {
    IntPrintable(0);
  }

  lemma ResponseReads(candidate: Value, env: Envelope, usage: Value, c: Candidate)
    requires Printable(candidate) && Printable(usage) && ReadCandidate(candidate) == Some(c)
    ensures var f := ResponseFields(candidate, env, usage); ReadFields(f) == Some(c) && PrintableFields(f)
  {
    assert |"candidates"| == |"responseId"| && "candidates"[0] != "responseId"[0];
    assert Each(Nil, ReadCandidate) == Some([]) && [c] + [] == [c];
    assert Each(Cons(candidate, Nil), ReadCandidate) == Some([c]);
  }

  lemma TurnReads(t: Turn, env: Envelope)
    ensures ReadFields(Response(t, env)) == Some(Candidate(ReadParts(t), t.finish)) && PrintableFields(Response(t, env))
  {
    ContentReads(t);
    PartsReadBack(t);
    CandidateReads(ContentFields(t), t.finish, Parts(t), ReadParts(t));
    UsagePrintable(env);
    ResponseReads(Obj(CandidateFields(ContentFields(t), t.finish)), env, Obj(UsageFields(env)),
      Candidate(ReadParts(t), t.finish));
  }

  lemma UsagePrintable(env: Envelope)
    ensures PrintableFields(UsageFields(env))
  {
    IntPrintable(env.inputTokens);
    IntPrintable(env.outputTokens);
  }

  lemma {:induction false} CallPartsAdded(st: Gathered, calls: seq<ToolCall>)
    ensures AddParts(st, CallPartsRead(calls)) == st.(calls := st.calls + MapSeq(RawCall, calls))
    decreases |calls|
  {
    if calls == [] {
      assert st.calls + [] == st.calls;
    } else {
      var p := Part("", false, Some(RawCall(calls[0])));
      assert CallPartsRead(calls)[1..] == CallPartsRead(calls[1..]);
      CallPartsAdded(AddPart(st, p), calls[1..]);
      Assoc(st.calls, [RawCall(calls[0])], MapSeq(RawCall, calls[1..]));
    }
  }

  lemma PartsAdded(t: Turn)
    ensures AddParts(START, ReadParts(t)) == Gathered(t.text, MapSeq(RawCall, t.calls), "")
  {
    assert [] + MapSeq(RawCall, t.calls) == MapSeq(RawCall, t.calls);
    if t.text == "" {
      assert ReadParts(t) == CallPartsRead(t.calls);
      CallPartsAdded(START, t.calls);
    } else {
      var p := Part(t.text, false, None);
      assert ReadParts(t)[1..] == CallPartsRead(t.calls);
      assert AddPart(START, p) == Gathered("" + t.text, [], "") && "" + t.text == t.text;
      CallPartsAdded(AddPart(START, p), t.calls);
    }
  }

  lemma {:induction false} EventObjectsOf(fs: seq<Frame>)
    requires forall f <- fs :: f.payload.Obj?
    ensures EventObjects(FrameEvents(fs)) == Payloads(fs)
  {
    if fs != [] {
      ObjectTrims(fs[0].payload.fields);
      var e := Event(fs[0].event, Print(fs[0].payload) + "\n");
      assert FrameEvents(fs) == [e] + FrameEvents(fs[1..]);
      assert ([e] + FrameEvents(fs[1..]))[1..] == FrameEvents(fs[1..]);
      EventObjectsOf(fs[1..]);
    }
  }

  function Payloads(fs: seq<Frame>): seq<string> {
    if fs == [] then [] else [Print(fs[0].payload)] + Payloads(fs[1..])
  }

  lemma NotArray(event: string, d: string, rest: string)
    requires event == ""
    ensures !ArrayFramed(FrameText(event, d) + rest)
  {
    assert (FrameText(event, d) + rest)[0] == 'd';
  }

  /** Event framing delivers the payloads. */
  lemma FramedObjects(fs: seq<Frame>)
    requires forall f <- fs :: f.event == "" && f.payload.Obj? && Printable(f.payload)
    ensures ObjectsOf(Render(fs)) == Payloads(fs)
  {
    RenderScans(fs);
    EventObjectsOf(fs);
    if fs != [] { NotArray(fs[0].event, Print(fs[0].payload), Render(fs[1..])); }
  }

  lemma ObjectDecodes(f: List<Field>, c: Candidate)
    requires PrintableFields(f) && ReadFields(f) == Some(c)
    ensures ObjectsOf(FrameText("", Print(Obj(f)))) == [Print(Obj(f))] && ReadObject(Print(Obj(f))) == Some(c)
  {
    var fs := [Frame("", Obj(f))];
    FramedObjects(fs);
    assert fs[1..] == [] && Payloads(fs) == [Print(Obj(f))];
    assert Render(fs) == FrameText("", Print(Obj(f)));
    PayloadParses(Obj(f));
  }

  /** Encoding then decoding, for every turn and envelope: arguments that are not valid JSON come
      back as the empty object. */
  lemma EncodeDecodes(t: Turn, env: Envelope)
    ensures Decode(Encode(t, env)) == Normalize(Turn("assistant", t.text, MapSeq(RawCall, t.calls), t.finish))
  {
    var n := Normalize(t);
    var c := Candidate(ReadParts(n), n.finish);
    TurnReads(n, env);
    ObjectDecodes(Response(n, env), c);
    PartsAdded(n);
    OneObject(Print(Obj(Response(n, env))), c);
    SortThenMap(RawCall, t.calls);
  }

  lemma OneObject(o: string, c: Candidate)
    requires ReadObject(o) == Some(c)
    ensures ApplyAll(START, [o]) == Apply(START, Some(c))
  {
    assert [o][1..] == [];
  }

  // ---------------------------------------------------------------- the two framings agree

  /** Response objects streamed as an array, each after its punctuation. */
  function ArrayPieces(seps: seq<string>, objs: seq<List<Field>>): seq<Piece>
    requires |seps| == |objs|
  {
    if objs == [] then [] else [Piece(seps[0], Print(Obj(objs[0])))] + ArrayPieces(seps[1..], objs[1..])
  }

  function EventFrames(objs: seq<List<Field>>): seq<Frame> {
    if objs == [] then [] else [Frame("", Obj(objs[0]))] + EventFrames(objs[1..])
  }

  lemma {:induction false} PiecesFrames(seps: seq<string>, objs: seq<List<Field>>)
    requires |seps| == |objs| && (forall i | 0 <= i < |objs| :: AllPlain(seps[i]) && PrintableFields(objs[i]))
    ensures Objects(ArrayPieces(seps, objs)) == Payloads(EventFrames(objs))
    ensures forall p <- ArrayPieces(seps, objs) :: AllPlain(p.sep) && ObjectText(p.obj)
    ensures forall f <- EventFrames(objs) :: f.event == "" && f.payload.Obj? && Printable(f.payload)
  {
    if objs != [] {
      PiecesFrames(seps[1..], objs[1..]);
      ReadPrinted(Obj(objs[0]), "");
      PrintToSolid(Obj(objs[0]), "");
    }
  }

  /** A streamed array decodes exactly as the same objects framed as events. */
  lemma FramingsAgree(seps: seq<string>, objs: seq<List<Field>>, tail: string)
    requires |seps| == |objs| && (forall i | 0 <= i < |objs| :: AllPlain(seps[i]) && PrintableFields(objs[i]))
    requires AllPlain(tail) && ArrayFramed(Text(ArrayPieces(seps, objs), tail))
    ensures Decode(Text(ArrayPieces(seps, objs), tail)) == Decode(Render(EventFrames(objs)))
  {
    PiecesFrames(seps, objs);
    ScannerExact(ArrayPieces(seps, objs), tail);
    FramedObjects(EventFrames(objs));
  }

  /** Cut anywhere past its opening bracket, a streamed array decodes as the objects completed so far. */
  lemma CutDecodes(seps: seq<string>, objs: seq<List<Field>>, tail: string, n: nat)
    requires |seps| == |objs| && (forall i | 0 <= i < |objs| :: AllPlain(seps[i]) && PrintableFields(objs[i]))
    requires AllPlain(tail) && n <= |Text(ArrayPieces(seps, objs), tail)|
    requires ArrayFramed(Text(ArrayPieces(seps, objs), tail)[..n])
    ensures exists m: nat | m <= |objs| ::
      && Decode(Text(ArrayPieces(seps, objs), tail)[..n]) == Decode(Render(EventFrames(objs[..m])))
      && |Completed(ArrayPieces(seps, objs), n)| == m
  {
    var ps := ArrayPieces(seps, objs);
    PiecesFrames(seps, objs);
    CutTolerant(ps, tail, n);
    var m := |Completed(ps, n)|;
    CompletedPrefix(seps, objs, n);
    PiecesFrames(seps[..m], objs[..m]);
    FramedObjects(EventFrames(objs[..m]));
  }

  lemma {:induction false} CompletedPrefix(seps: seq<string>, objs: seq<List<Field>>, n: nat)
    requires |seps| == |objs|
    ensures var m := |Completed(ArrayPieces(seps, objs), n)|;
      m <= |objs| && Completed(ArrayPieces(seps, objs), n) == Payloads(EventFrames(objs[..m]))
  {
    var ps := ArrayPieces(seps, objs);
    if ps != [] && n >= |ps[0].sep| + |ps[0].obj| {
      var k := n - |ps[0].sep| - |ps[0].obj|;
      assert ps[1..] == ArrayPieces(seps[1..], objs[1..]);
      CompletedPrefix(seps[1..], objs[1..], k);
      var m := |Completed(ps[1..], k)|;
      assert objs[..m + 1][1..] == objs[1..][..m];
    }
  }
}
