/** What response objects add up to. */
module GeminiFragments {
  import opened Lists
  import opened Options
  import opened Texts
  import opened Json
  import opened Canon
  import opened Records
  import opened Sse
  import opened Transcript
  import opened Envelopes
  import opened Gemini

  // ---------------------------------------------------------------- a stream, read part by part

  function PartsIn(c: Option<Candidate>): seq<Part> { if c.Some? then c.value.parts else [] }

  function FinishOf(c: Option<Candidate>): string { if c.Some? then c.value.finish else "" }

  /** What of a part is text of the turn: nothing of a call or of thinking. */
  function TextOf(p: Part): string { if p.call.None? && !p.thought then p.text else "" }

  function CallIn(p: Part): seq<ToolCall> { if p.call.Some? then [p.call.value] else [] }

  function Concat<A, B>(f: A -> seq<B>, s: seq<A>): seq<B> {
    if s == [] then [] else f(s[0]) + Concat(f, s[1..])
  }

  /** The turn some objects spell. */
  function SpelledTurn(objs: seq<string>): Turn {
    var cs := MapSeq(ReadObject, objs);
    var ps := Concat(PartsIn, cs);
    Normalize(Turn("assistant", Join(MapSeq(TextOf, ps)), Concat(CallIn, ps), LastSet(MapSeq(FinishOf, cs))))
  }

  lemma {:induction false} ConcatAppend<A, B>(f: A -> seq<B>, a: seq<A>, b: seq<A>)
    ensures Concat(f, a + b) == Concat(f, a) + Concat(f, b)
  {
    if a == [] {
      assert a + b == b;
    } else {
      assert (a + b)[1..] == a[1..] + b;
      ConcatAppend(f, a[1..], b);
      Assoc(f(a[0]), Concat(f, a[1..]), Concat(f, b));
    }
  }

  lemma {:induction false} PartsGather(st: Gathered, ps: seq<Part>)
    ensures AddParts(st, ps) == Gathered(st.text + Join(MapSeq(TextOf, ps)), st.calls + Concat(CallIn, ps), st.finish)
    decreases |ps|
  {
    if ps == [] {
      NothingAdded(st.text);
      NothingAdded(st.calls);
    } else {
      PartsGather(AddPart(st, ps[0]), ps[1..]);
      NothingAdded(st.text);
      NothingAdded(st.calls);
      Assoc(st.text, TextOf(ps[0]), Join(MapSeq(TextOf, ps[1..])));
      Assoc(st.calls, CallIn(ps[0]), Concat(CallIn, ps[1..]));
    }
  }

  lemma ObjectGathers(st: Gathered, c: Option<Candidate>)
    ensures Apply(st, c) == Gathered(st.text + Join(MapSeq(TextOf, PartsIn(c))), st.calls + Concat(CallIn, PartsIn(c)),
                                     if FinishOf(c) != "" then FinishOf(c) else st.finish)
  {
    PartsGather(st, PartsIn(c));
    NothingAdded(st.text);
    NothingAdded(st.calls);
  }

  lemma {:induction false} ObjectsGather(st: Gathered, objs: seq<string>)
    ensures var cs := MapSeq(ReadObject, objs);
      var ps, last := Concat(PartsIn, cs), LastSet(MapSeq(FinishOf, cs));
      ApplyAll(st, objs) == Gathered(st.text + Join(MapSeq(TextOf, ps)), st.calls + Concat(CallIn, ps),
                                     if last != "" then last else st.finish)
    decreases |objs|
  {
    if objs == [] {
      NothingAdded(st.text);
      NothingAdded(st.calls);
    } else {
      var c, cs := ReadObject(objs[0]), MapSeq(ReadObject, objs[1..]);
      var ps, qs := PartsIn(c), Concat(PartsIn, cs);
      ObjectsGather(Apply(st, c), objs[1..]);
      ObjectGathers(st, c);
      MapSeqAppend(TextOf, ps, qs);
      JoinAppend(MapSeq(TextOf, ps), MapSeq(TextOf, qs));
      ConcatAppend(CallIn, ps, qs);
      Assoc(st.text, Join(MapSeq(TextOf, ps)), Join(MapSeq(TextOf, qs)));
      Assoc(st.calls, Concat(CallIn, ps), Concat(CallIn, qs));
      LastSetCons(FinishOf(c), MapSeq(FinishOf, cs));
    }
  }

  /** Any stream, in either framing, decodes to what its objects spell: the texts of the parts that are
      neither calls nor thinking one after the other, the calls, and the last finish reason. */
  lemma DecodesToSpelled(raw: string)
    ensures Decode(raw) == SpelledTurn(ObjectsOf(raw))
  {
    ObjectsGather(START, ObjectsOf(raw));
    var ps := Concat(PartsIn, MapSeq(ReadObject, ObjectsOf(raw)));
    NothingAdded(Join(MapSeq(TextOf, ps)));
    NothingAdded(Concat(CallIn, ps));
  }

  /** Of the candidates of a response only the first counts, but all of them must decode. */
  lemma FirstCandidateCounts(f: List<Field>, v: Value, more: List<Value>)
    requires Lookup(f, "candidates") == Some(Arr(Cons(v, more)))
    ensures Gemini.ReadFields(f) == if Each(more, ReadCandidate).Some? then ReadCandidate(v) else None
  {
    var first, rest := ReadCandidate(v), Each(more, ReadCandidate);
    if first.Some? && rest.Some? { assert ([first.value] + rest.value)[0] == first.value; }
  }

  // ---------------------------------------------------------------- cut elsewhere, and thinking dropped

  /** What a list of objects spells, taken apart in the middle. */
  lemma SpelledAround(pre: seq<string>, mid: seq<string>, post: seq<string>)
    ensures var cs := MapSeq(ReadObject, pre + mid + post);
      && cs == MapSeq(ReadObject, pre) + MapSeq(ReadObject, mid) + MapSeq(ReadObject, post)
      && (var ps := Concat(PartsIn, cs);
          && Join(MapSeq(TextOf, ps)) == PartTexts(pre) + PartTexts(mid) + PartTexts(post)
          && Concat(CallIn, ps) == PartCalls(pre) + PartCalls(mid) + PartCalls(post))
      && LastSet(MapSeq(FinishOf, cs))
         == if Finish(post) != "" then Finish(post) else if Finish(mid) != "" then Finish(mid) else Finish(pre)
  {
    MapSeqAppend(ReadObject, pre + mid, post);
    MapSeqAppend(ReadObject, pre, mid);
    TwoSpell(MapSeq(ReadObject, pre) + MapSeq(ReadObject, mid), MapSeq(ReadObject, post));
    TwoSpell(MapSeq(ReadObject, pre), MapSeq(ReadObject, mid));
  }

  lemma TwoSpell(a: seq<Option<Candidate>>, b: seq<Option<Candidate>>)
    ensures var x, y, z := Concat(PartsIn, a), Concat(PartsIn, b), Concat(PartsIn, a + b);
      && Join(MapSeq(TextOf, z)) == Join(MapSeq(TextOf, x)) + Join(MapSeq(TextOf, y))
      && Concat(CallIn, z) == Concat(CallIn, x) + Concat(CallIn, y)
    ensures var f, g := LastSet(MapSeq(FinishOf, a)), LastSet(MapSeq(FinishOf, b));
      LastSet(MapSeq(FinishOf, a + b)) == if g != "" then g else f
  {
    var x, y := Concat(PartsIn, a), Concat(PartsIn, b);
    ConcatAppend(PartsIn, a, b);
    MapSeqAppend(TextOf, x, y);
    JoinAppend(MapSeq(TextOf, x), MapSeq(TextOf, y));
    ConcatAppend(CallIn, x, y);
    MapSeqAppend(FinishOf, a, b);
    LastSetAppend(MapSeq(FinishOf, a), MapSeq(FinishOf, b));
  }

  function PartTexts(objs: seq<string>): string { Join(MapSeq(TextOf, Concat(PartsIn, MapSeq(ReadObject, objs)))) }

  function PartCalls(objs: seq<string>): seq<ToolCall> { Concat(CallIn, Concat(PartsIn, MapSeq(ReadObject, objs))) }

  function Finish(objs: seq<string>): string { LastSet(MapSeq(FinishOf, MapSeq(ReadObject, objs))) }

  /** A stretch of any stream may be replaced by one that spells the same. */
  lemma StretchReplaced(raw: string, other: string, pre: seq<string>, x: seq<string>, y: seq<string>, post: seq<string>)
    requires ObjectsOf(raw) == pre + x + post && ObjectsOf(other) == pre + y + post
    requires PartTexts(x) == PartTexts(y) && PartCalls(x) == PartCalls(y) && Finish(x) == Finish(y)
    ensures Decode(raw) == Decode(other)
  {
    SpelledAround(pre, x, post);
    SpelledAround(pre, y, post);
    DecodesToSpelled(raw);
    DecodesToSpelled(other);
  }

  lemma OneSpells(o: string, c: Candidate)
    requires ReadObject(o) == Some(c)
    ensures PartTexts([o]) == Join(MapSeq(TextOf, c.parts)) && PartCalls([o]) == Concat(CallIn, c.parts)
    ensures Finish([o]) == c.finish
  {
    assert [o][1..] == [] && [Some(c)][1..] == [];
    MapSeqSnoc(ReadObject, [], o);
    MapSeqSnoc(FinishOf, [], Some(c));
    LastSetSnoc([], c.finish);
    NothingAdded([o]);
    NothingAdded([Some(c)]);
    NothingAdded([c.finish]);
    NothingAdded(c.parts);
    assert MapSeq(ReadObject, [o]) == [Some(c)] && MapSeq(FinishOf, [Some(c)]) == [c.finish];
    assert Concat(PartsIn, [Some(c)]) == c.parts;
  }

  lemma TwoObjects(o: string, p: string, c: Candidate, d: Candidate)
    requires ReadObject(o) == Some(c) && ReadObject(p) == Some(d)
    ensures PartTexts([o, p]) == Join(MapSeq(TextOf, c.parts)) + Join(MapSeq(TextOf, d.parts))
    ensures PartCalls([o, p]) == Concat(CallIn, c.parts) + Concat(CallIn, d.parts)
    ensures Finish([o, p]) == if d.finish != "" then d.finish else c.finish
  {
    assert [o, p] == [o] + [p];
    MapSeqAppend(ReadObject, [o], [p]);
    TwoSpell(MapSeq(ReadObject, [o]), MapSeq(ReadObject, [p]));
    OneSpells(o, c);
    OneSpells(p, d);
  }

  /** Cutting a piece of text of any stream in two leaves the decoded turn as it was. */
  lemma SplittingText(raw: string, other: string, pre: seq<string>, post: seq<string>,
                      whole: string, first: string, second: string, s: string, t: string, finish: string)
    requires ObjectsOf(raw) == pre + [first, second] + post && ObjectsOf(other) == pre + [whole] + post
    requires ReadObject(whole) == Some(Candidate([Part(s + t, false, None)], finish))
    requires ReadObject(first) == Some(Candidate([Part(s, false, None)], ""))
    requires ReadObject(second) == Some(Candidate([Part(t, false, None)], finish))
    ensures Decode(raw) == Decode(other)
  {
    OneSpells(whole, Candidate([Part(s + t, false, None)], finish));
    TwoObjects(first, second, Candidate([Part(s, false, None)], ""), Candidate([Part(t, false, None)], finish));
    TextAlone(s);
    TextAlone(t);
    TextAlone(s + t);
    StretchReplaced(raw, other, pre, [first, second], [whole], post);
  }

  lemma TextAlone(s: string)
    ensures var ps := [Part(s, false, None)]; Join(MapSeq(TextOf, ps)) == s && Concat(CallIn, ps) == []
  {
    assert [Part(s, false, None)][1..] == [];
    assert MapSeq(TextOf, [Part(s, false, None)]) == [s] && [s][1..] == [] && s + "" == s;
  }

  /** A response that carries one piece of thinking. */
  function ThoughtFields(s: string, env: Envelope): List<Field> {
    var content := R2("parts", One(Obj(R2("text", Str(s), "thought", Bool(true)))), "role", Str("model"));
    ResponseFields(Obj(CandidateFields(content, "")), env, Obj(UsageFields(env)))
  }

  lemma ThoughtReads(s: string, env: Envelope)
    ensures PrintableFields(ThoughtFields(s, env))
    ensures Gemini.ReadFields(ThoughtFields(s, env)) == Some(Candidate([Part(s, true, None)], ""))
  {
    var part := Obj(R2("text", Str(s), "thought", Bool(true)));
    var content := R2("parts", One(part), "role", Str("model"));
    PartReads(s);
    assert Printable(One(part));
    assert |"parts"| != |"role"|;
    assert ListIn(content, "parts") == Some(Cons(part, Nil));
    assert Each(Nil, ReadPart) == Some([]) && [Part(s, true, None)] + [] == [Part(s, true, None)];
    CandidateReads(content, "", Cons(part, Nil), [Part(s, true, None)]);
    UsagePrintable(env);
    ResponseReads(Obj(CandidateFields(content, "")), env, Obj(UsageFields(env)), Candidate([Part(s, true, None)], ""));
  }

  lemma PartReads(s: string)
    ensures var part := Obj(R2("text", Str(s), "thought", Bool(true)));
      ReadPart(part) == Some(Part(s, true, None)) && Printable(part)
  {
    var f := R2("text", Str(s), "thought", Bool(true));
    assert |"text"| != |"thought"|;
    assert |"functionCall"| != |"thought"| && |"functionCall"| != |"text"|;
    assert Lookup(f, "functionCall") == None;
  }

  /** Thinking streamed anywhere leaves the decoded turn as it was. */
  lemma ThoughtsDropped(pre: seq<List<Field>>, post: seq<List<Field>>, s: string, env: Envelope)
    requires forall f <- pre + post :: PrintableFields(f)
    ensures Decode(Render(EventFrames(pre + [ThoughtFields(s, env)] + post))) == Decode(Render(EventFrames(pre + post)))
  {
    var f := ThoughtFields(s, env);
    ThoughtReads(s, env);
    Framed(pre + [f] + post);
    Framed(pre + post);
    var a, o, b := Payloads(EventFrames(pre)), Print(Obj(f)), Payloads(EventFrames(post));
    PayloadsAppend(pre + [f], post);
    PayloadsAppend(pre, [f]);
    PayloadsAppend(pre, post);
    OnePayload(f);
    PayloadParses(Obj(f));
    OneSpells(o, Candidate([Part(s, true, None)], ""));
    ThoughtAlone(s);
    NothingAdded(a);
    StretchReplaced(Render(EventFrames(pre + [f] + post)), Render(EventFrames(pre + post)), a, [o], [], b);
  }

  lemma ThoughtAlone(s: string)
    ensures var ps := [Part(s, true, None)]; Join(MapSeq(TextOf, ps)) == "" && Concat(CallIn, ps) == []
    ensures PartTexts([]) == "" && PartCalls([]) == [] && Finish([]) == ""
  {
    assert [Part(s, true, None)][1..] == [];
    assert MapSeq(TextOf, [Part(s, true, None)]) == [""] && [""][1..] == [];
  }

  lemma OnePayload(f: List<Field>)
    ensures Payloads(EventFrames([f])) == [Print(Obj(f))]
  {
    assert [f][1..] == [];
    assert EventFrames([f]) == [Frame("", Obj(f))] && [Frame("", Obj(f))][1..] == [];
  }

  lemma {:induction false} PayloadsAppend(a: seq<List<Field>>, b: seq<List<Field>>)
    ensures Payloads(EventFrames(a + b)) == Payloads(EventFrames(a)) + Payloads(EventFrames(b))
  {
    if a == [] {
      assert a + b == b;
    } else {
      assert (a + b)[1..] == a[1..] + b;
      PayloadsAppend(a[1..], b);
    }
  }

  lemma Framed(objs: seq<List<Field>>)
    requires forall f <- objs :: PrintableFields(f)
    ensures ObjectsOf(Render(EventFrames(objs))) == Payloads(EventFrames(objs))
  {
    FramesPrintable(objs);
    FramedObjects(EventFrames(objs));
  }

  lemma {:induction false} FramesPrintable(objs: seq<List<Field>>)
    requires forall f <- objs :: PrintableFields(f)
    ensures forall f <- EventFrames(objs) :: f.event == "" && f.payload.Obj? && Printable(f.payload)
  {
    if objs != [] {
      assert objs[0] in objs;
      forall f <- objs[1..] ensures PrintableFields(f) { assert f in objs; }
      FramesPrintable(objs[1..]);
    }
  }
}
