/** The dialect registry, and the codec laws that hold in every dialect, with their exact conditions. */
module Dialects {
  import opened Lists
  import opened Options
  import opened Texts
  import opened Json
  import opened Canon
  import opened Records
  import opened Sse
  import opened Transcript
  import opened Envelopes
  import RawArgs
  import ToolTables
  import Ant = Anthropic
  import AntFraming = AnthropicFraming
  import Oai = OpenAI
  import OaiRoundTrip = OpenAIRoundTrip
  import Rsp = Responses
  import RspRoundTrip = ResponsesRoundTrip
  import Gem = Gemini
  import Oll = Ollama

  datatype Provider = Anthropic | OpenAIChat | OpenAIResponses | Gemini | Ollama

  // ---------------------------------------------------------------- routing

  /** Routing goes by the first dialect, in registry order, with a marker in the path. */
  function ProviderForURL(url: string): Provider {
    if Contains(url, ":streamGenerateContent") || Contains(url, ":generateContent") then Gemini
    else if Contains(url, "/api/chat") then Ollama
    else if Contains(url, "/responses") then OpenAIResponses
    else if Contains(url, "/chat/completions") then OpenAIChat
    else Anthropic
  }

  /** Any path goes to the first dialect, in this order, one of whose markers it has, and to Anthropic when
      it has none. */
  lemma RoutedIff(url: string)
    ensures var gemini := Inside(url, ":streamGenerateContent") || Inside(url, ":generateContent");
      var ollama, responses, chat := Inside(url, "/api/chat"), Inside(url, "/responses"), Inside(url, "/chat/completions");
      && (ProviderForURL(url) == Gemini <==> gemini)
      && (ProviderForURL(url) == Ollama <==> !gemini && ollama)
      && (ProviderForURL(url) == OpenAIResponses <==> !gemini && !ollama && responses)
      && (ProviderForURL(url) == OpenAIChat <==> !gemini && !ollama && !responses && chat)
      && (ProviderForURL(url) == Anthropic <==> !gemini && !ollama && !responses && !chat)
  {
    ContainsIff(url, ":streamGenerateContent");
    ContainsIff(url, ":generateContent");
    ContainsIff(url, "/api/chat");
    ContainsIff(url, "/responses");
    ContainsIff(url, "/chat/completions");
  }

  function RequestPath(p: Provider): string {
    match p
    case Gemini => "/v1beta/models/gemini:streamGenerateContent"
    case Ollama => "/api/chat"
    case OpenAIResponses => "/v1/responses"
    case OpenAIChat => "/v1/chat/completions"
    case Anthropic => "/v1/messages"
  }

  lemma OccursStart(s: string, sub: string, i: nat)
    requires OccursAt(s, sub, i) && |sub| >= 2
    ensures i + 1 < |s| && s[i] == sub[0] && s[i + 1] == sub[1]
  {
    assert s[i + 0] == sub[0];
  }

  /** A two-character start that never occurs rules the whole text out. */
  lemma NoPair(s: string, sub: string)
    requires |sub| >= 2 && forall i | 0 <= i < |s| - 1 :: !(s[i] == sub[0] && s[i + 1] == sub[1])
    ensures !Contains(s, sub)
  {
    if Contains(s, sub) {
      var i: nat :| i <= |s| && OccursAt(s, sub, i);
      OccursStart(s, sub, i);
    }
  }

  /** Only a Gemini path has a colon. */
  lemma NoColons(s: string)
    requires forall i | 0 <= i < |s| :: s[i] != ':'
    ensures !Contains(s, ":streamGenerateContent") && !Contains(s, ":generateContent")
  {
    NoPair(s, ":streamGenerateContent");
    NoPair(s, ":generateContent");
  }

  lemma GeminiRoutes(s: string)
    requires s == RequestPath(Gemini)
    ensures ProviderForURL(s) == Gemini
  {
    assert OccursAt(s, ":streamGenerateContent", 21);
  }

  lemma OllamaRoutes(s: string)
    requires s == RequestPath(Ollama)
    ensures ProviderForURL(s) == Ollama
  {
    NoColons(s);
    assert OccursAt(s, "/api/chat", 0);
  }

  lemma ResponsesRoutes(s: string)
    requires s == RequestPath(OpenAIResponses)
    ensures ProviderForURL(s) == OpenAIResponses
  {
    NoColons(s);
    NoPair(s, "/api/chat");
    assert OccursAt(s, "/responses", 3);
  }

  lemma ChatRoutes(s: string)
    requires s == RequestPath(OpenAIChat)
    ensures ProviderForURL(s) == OpenAIChat
  {
    NoColons(s);
    NoPair(s, "/api/chat");
    NoPair(s, "/responses");
    assert OccursAt(s, "/chat/completions", 3);
  }

  lemma AnthropicRoutes(s: string)
    requires s == RequestPath(Anthropic)
    ensures ProviderForURL(s) == Anthropic
  {
    NoColons(s);
    NoPair(s, "/api/chat");
    NoPair(s, "/responses");
    NoPair(s, "/chat/completions");
  }

  /** A canonical request path routes back to its own dialect. */
  lemma RequestPathRoutes(p: Provider)
    ensures ProviderForURL(RequestPath(p)) == p
  {
    match p
    case Gemini => GeminiRoutes(RequestPath(p));
    case Ollama => OllamaRoutes(RequestPath(p));
    case OpenAIResponses => ResponsesRoutes(RequestPath(p));
    case OpenAIChat => ChatRoutes(RequestPath(p));
    case Anthropic => AnthropicRoutes(RequestPath(p));
  }

  // ---------------------------------------------------------------- the codecs

  function Encode(p: Provider, t: Turn, env: Envelope): string {
    match p
    case Anthropic => Ant.Encode(t, env)
    case OpenAIChat => Oai.Encode(t, env)
    case OpenAIResponses => Rsp.Encode(t, env)
    case Gemini => Gem.Encode(t, env)
    case Ollama => Oll.Encode(t, env)
  }

  /** Only the Anthropic decoder reports an error event. */
  function Decode(p: Provider, raw: string): Ant.Decoded {
    match p
    case Anthropic => Ant.Decode(raw)
    case OpenAIChat => Ant.Decoded(Oai.Decode(raw), false)
    case OpenAIResponses => Ant.Decoded(Rsp.Decode(raw), false)
    case Gemini => Ant.Decoded(Gem.Decode(raw), false)
    case Ollama => Ant.Decoded(Oll.Decode(raw), false)
  }

  /** Whether arguments travel as a string; Gemini and Ollama embed them as JSON. */
  predicate TextArgs(p: Provider) { p != Gemini && p != Ollama }

  function OnWire(p: Provider, c: ToolCall): ToolCall {
    if TextArgs(p) then CanonCall(c) else RawCall(c)
  }

  /** What a turn becomes by going through the wire. */
  function Carried(p: Provider, t: Turn): Turn {
    Normalize(Turn("assistant", t.text, MapSeq((c: ToolCall) => OnWire(p, c), t.calls), t.finish))
  }

  lemma CarriedIs(p: Provider, t: Turn)
    ensures Carried(p, t)
         == Normalize(Turn("assistant", t.text, MapSeq(if TextArgs(p) then CanonCall else RawCall, t.calls), t.finish))
  {
    var f := (c: ToolCall) => OnWire(p, c);
    if TextArgs(p) { MapSeqSame(f, CanonCall, t.calls); } else { MapSeqSame(f, RawCall, t.calls); }
  }

  /** The codec law, for every dialect, turn and envelope. */
  lemma DecodeEncode(p: Provider, t: Turn, env: Envelope)
    ensures Decode(p, Encode(p, t, env)) == Ant.Decoded(Carried(p, t), false)
  {
    CarriedIs(p, t);
    match p
    case Anthropic => AntFraming.EncodeDecodes(t, env);
    case OpenAIChat => OaiRoundTrip.EncodeDecodes(t, env);
    case OpenAIResponses => RspRoundTrip.EncodeDecodes(t, env);
    case Gemini => Gem.EncodeDecodes(t, env);
    case Ollama => Oll.EncodeDecodes(t, env);
  }

  /** Arguments a dialect carries unchanged: canonical text, and valid JSON where they are embedded. */
  predicate Survives(p: Provider, c: ToolCall) {
    if TextArgs(p) then CanonArgs(c.args) == c.args else Canonicalize(c.args) == Some(c.args)
  }

  predicate AllSurvive(p: Provider, calls: seq<ToolCall>) {
    forall c <- calls :: Survives(p, c)
  }

  lemma SurvivesIff(p: Provider, c: ToolCall)
    ensures OnWire(p, c) == c <==> Survives(p, c)
    ensures Survives(p, OnWire(p, c))
  {
    RawArgs.RawCallKeepsIff(c);
    CanonArgsSettles(c.args);
    ArgsValueText(c.args);
    if !TextArgs(p) {
      if Canonicalize(c.args).Some? {
        CanonicalizeSettles(c.args);
      } else {
        CanonicalValue(Obj(Nil));
        assert Print(Norm(Obj(Nil))) == "{}";
      }
    }
  }

  lemma {:induction false} MapSeqMember<A, B>(f: A -> B, s: seq<A>, y: B)
    requires y in MapSeq(f, s)
    ensures exists x <- s :: f(x) == y
  {
    if y == f(s[0]) {
      assert s[0] in s;
    } else {
      MapSeqMember(f, s[1..], y);
      var x :| x in s[1..] && f(x) == y;
      assert x in s;
    }
  }

  lemma SurvivorsKept(p: Provider, calls: seq<ToolCall>)
    requires AllSurvive(p, calls)
    ensures MapSeq((c: ToolCall) => OnWire(p, c), calls) == calls
  {
    var f, id := (c: ToolCall) => OnWire(p, c), (c: ToolCall) => c;
    forall c <- calls ensures f(c) == id(c) { SurvivesIff(p, c); }
    MapSeqSame(f, id, calls);
    MapSeqIdentity(id, calls);
  }

  lemma KeptSurvive(p: Provider, calls: seq<ToolCall>)
    requires multiset(MapSeq((c: ToolCall) => OnWire(p, c), calls)) == multiset(calls)
    ensures AllSurvive(p, calls)
  {
    var f := (c: ToolCall) => OnWire(p, c);
    forall c <- calls ensures Survives(p, c) {
      assert c in multiset(MapSeq(f, calls));
      MapSeqMember(f, calls, c);
      var x :| x in calls && f(x) == c;
      SurvivesIff(p, x);
    }
  }

  /** Going through the wire leaves the calls as they were exactly when each of them survives. */
  lemma CallsKeptIff(p: Provider, calls: seq<ToolCall>)
    ensures multiset(MapSeq((c: ToolCall) => OnWire(p, c), calls)) == multiset(calls) <==> AllSurvive(p, calls)
  {
    if AllSurvive(p, calls) { SurvivorsKept(p, calls); }
    if multiset(MapSeq((c: ToolCall) => OnWire(p, c), calls)) == multiset(calls) { KeptSurvive(p, calls); }
  }

  lemma {:induction false} MapSeqIdentity<A>(id: A -> A, s: seq<A>)
    requires forall x :: id(x) == x
    ensures MapSeq(id, s) == s
  {
    if s != [] { MapSeqIdentity(id, s[1..]); }
  }

  /** Decode after encode is normalization, exactly for assistant turns whose arguments the dialect
      can carry. */
  lemma RoundTripIff(p: Provider, t: Turn, env: Envelope)
    ensures Decode(p, Encode(p, t, env)).turn == Normalize(t)
       <==> RoleOf(t.role) == "assistant" && AllSurvive(p, t.calls)
  {
    DecodeEncode(p, t, env);
    NormalizeSame(Turn("assistant", t.text, MapSeq((c: ToolCall) => OnWire(p, c), t.calls), t.finish), t);
    CallsKeptIff(p, t.calls);
    assert RoleOf("assistant") == "assistant";
  }

  // ---------------------------------------------------------------- what decoders produce

  /** Arguments as every decoder leaves them: their own canonical form if they have one. */
  predicate Settled(calls: seq<ToolCall>) {
    forall c <- calls :: CanonArgs(c.args) == c.args
  }

  lemma SortKeepsSettled(calls: seq<ToolCall>)
    requires Settled(calls)
    ensures Settled(SortCalls(calls))
  {
    SortCallsSorts(calls);
    forall c <- SortCalls(calls) ensures CanonArgs(c.args) == c.args {
      assert c in multiset(SortCalls(calls));
    }
  }

  lemma {:induction false} BlockCallsSettled(order: seq<int>, blocks: map<int, Ant.Block>)
    ensures Settled(Ant.BlockCalls(order, blocks))
  {
    if order != [] {
      BlockCallsSettled(order[1..], blocks);
      if order[0] in blocks { CanonArgsSettles(blocks[order[0]].args); }
    }
  }

  lemma {:induction false} TableCallsSettled(order: seq<int>, tools: map<int, ToolTables.Acc>)
    ensures Settled(ToolTables.Calls(order, tools))
  {
    if order != [] {
      TableCallsSettled(order[1..], tools);
      if order[0] in tools { CanonArgsSettles(tools[order[0]].args); }
    }
  }

  lemma {:induction false} LookupPrintable(fields: List<Field>, key: string)
    requires PrintableFields(fields) && Lookup(fields, key).Some?
    ensures Printable(Lookup(fields, key).value)
  {
    if fields.Cons? && Lookup(fields.tail, key).Some? { LookupPrintable(fields.tail, key); }
  }

  lemma ArgsInSettled(fields: List<Field>, key: string)
    requires PrintableFields(fields)
    ensures CanonArgs(RawArgs.ArgsIn(fields, key)) == RawArgs.ArgsIn(fields, key)
  {
    var v := Lookup(fields, key);
    if v.Some? {
      LookupPrintable(fields, key);
      CanonicalValue(v.value);
    } else {
      assert Canonicalize("").None?;
    }
  }

  lemma ParsedPrintable(s: string)
    requires ParseDoc(s).Some?
    ensures Printable(ParseDoc(s).value)
  {
    ReadIsPrintable(s);
  }

  // ---- Ollama

  lemma OllamaCallSettled(v: Value)
    requires Printable(v) && Oll.ReadCall(v).Some?
    ensures Settled([Oll.ReadCall(v).value])
  {
    var f := FieldsOf(v).value;
    var fn := SubIn(f, "function").value;
    SubPrintable(f, "function");
    ArgsInSettled(fn, "arguments");
  }

  lemma SubPrintable(fields: List<Field>, key: string)
    requires PrintableFields(fields) && SubIn(fields, key).Some?
    ensures PrintableFields(SubIn(fields, key).value)
  {
    if Lookup(fields, key).Some? { LookupPrintable(fields, key); }
  }

  lemma ListPrintable(fields: List<Field>, key: string)
    requires PrintableFields(fields) && ListIn(fields, key).Some?
    ensures PrintableItems(ListIn(fields, key).value)
  {
    if Lookup(fields, key).Some? { LookupPrintable(fields, key); }
  }

  lemma {:induction false} OllamaCallsSettled(items: List<Value>)
    requires PrintableItems(items) && Each(items, Oll.ReadCall).Some?
    ensures Settled(Each(items, Oll.ReadCall).value)
  {
    if items.Cons? {
      OllamaCallSettled(items.head);
      OllamaCallsSettled(items.tail);
    }
  }

  lemma OllamaLineSettled(raw: string)
    requires Oll.ReadLine(raw).Some?
    ensures Settled(Oll.ReadLine(raw).value.calls)
  {
    var line := TrimSpace(raw);
    ParsedPrintable(line);
    var f := FieldsOf(ParseDoc(line).value).value;
    SubPrintable(f, "message");
    var m := SubIn(f, "message").value;
    ListPrintable(m, "tool_calls");
    OllamaCallsSettled(ListIn(m, "tool_calls").value);
  }

  lemma {:induction false} OllamaGathered(st: Oll.Gathered, lines: seq<string>)
    requires Settled(st.calls)
    ensures Settled(Oll.ApplyAll(st, lines).calls)
    decreases |lines|
  {
    if lines != [] {
      var l := Oll.ReadLine(lines[0]);
      if l.Some? { OllamaLineSettled(lines[0]); }
      OllamaGathered(Oll.Apply(st, l), lines[1..]);
    }
  }

  // ---- Gemini

  lemma GeminiPartSettled(v: Value)
    requires Printable(v) && Gem.ReadPart(v).Some? && Gem.ReadPart(v).value.call.Some?
    ensures Settled([Gem.ReadPart(v).value.call.value])
  {
    var f := FieldsOf(v).value;
    LookupPrintable(f, "functionCall");
    ArgsInSettled(Lookup(f, "functionCall").value.fields, "args");
  }

  predicate PartsSettled(ps: seq<Gem.Part>) {
    forall p <- ps :: p.call.Some? ==> CanonArgs(p.call.value.args) == p.call.value.args
  }

  lemma {:induction false} GeminiPartsSettled(items: List<Value>)
    requires PrintableItems(items) && Each(items, Gem.ReadPart).Some?
    ensures PartsSettled(Each(items, Gem.ReadPart).value)
  {
    if items.Cons? {
      if Gem.ReadPart(items.head).value.call.Some? { GeminiPartSettled(items.head); }
      GeminiPartsSettled(items.tail);
    }
  }

  lemma GeminiCandidateSettled(v: Value)
    requires Printable(v) && Gem.ReadCandidate(v).Some?
    ensures PartsSettled(Gem.ReadCandidate(v).value.parts)
  {
    var f := FieldsOf(v).value;
    SubPrintable(f, "content");
    var content := SubIn(f, "content").value;
    ListPrintable(content, "parts");
    GeminiPartsSettled(ListIn(content, "parts").value);
  }

  lemma GeminiObjectSettled(o: string)
    requires Gem.ReadObject(o).Some?
    ensures PartsSettled(Gem.ReadObject(o).value.parts)
  {
    ParsedPrintable(o);
    var f := FieldsOf(ParseDoc(o).value).value;
    ListPrintable(f, "candidates");
    var items := ListIn(f, "candidates").value;
    assert items.Cons? && Gem.ReadCandidate(items.head).Some?;
    GeminiCandidateSettled(items.head);
  }

  lemma {:induction false} GeminiPartsGathered(st: Gem.Gathered, ps: seq<Gem.Part>)
    requires Settled(st.calls) && PartsSettled(ps)
    ensures Settled(Gem.AddParts(st, ps).calls)
    decreases |ps|
  {
    if ps != [] {
      assert ps[0] in ps;
      forall p <- ps[1..] ensures p in ps {}
      GeminiPartsGathered(Gem.AddPart(st, ps[0]), ps[1..]);
    }
  }

  lemma {:induction false} GeminiGathered(st: Gem.Gathered, objs: seq<string>)
    requires Settled(st.calls)
    ensures Settled(Gem.ApplyAll(st, objs).calls)
    decreases |objs|
  {
    if objs != [] {
      var c := Gem.ReadObject(objs[0]);
      if c.Some? {
        GeminiObjectSettled(objs[0]);
        GeminiPartsGathered(st, c.value.parts);
      }
      GeminiGathered(Gem.Apply(st, c), objs[1..]);
    }
  }

  /** Whatever the bytes, a decoder's turn is a normalized assistant turn with settled arguments. */
  lemma DecodedShape(p: Provider, raw: string)
    ensures var t := Decode(p, raw).turn;
      t.role == "assistant" && IsNormalized(t) && Settled(t.calls)
  {
    assert RoleOf("assistant") == "assistant";
    match p
    case Anthropic =>
      var st := Fold(Ant.Apply, Ant.START, Ant.Deltas(Events(raw)));
      var calls := Ant.BlockCalls(st.order, st.blocks);
      BlockCallsSettled(st.order, st.blocks);
      SortKeepsSettled(calls);
      NormalizeSettles(Turn("assistant", Ant.BlockTexts(st.order, st.blocks), calls, st.finish));
    case OpenAIChat =>
      var st := Fold(Oai.Apply, Oai.START, Oai.Choices(Events(raw)));
      var calls := ToolTables.Calls(st.table.order, st.table.tools);
      TableCallsSettled(st.table.order, st.table.tools);
      SortKeepsSettled(calls);
      NormalizeSettles(Turn("assistant", st.text, calls, st.finish));
    case OpenAIResponses =>
      var st := Fold(Rsp.Apply, Rsp.START, Rsp.Acts(Events(raw)));
      var calls := ToolTables.Calls(st.table.order, st.table.tools);
      TableCallsSettled(st.table.order, st.table.tools);
      SortKeepsSettled(calls);
      NormalizeSettles(Turn("assistant", st.text, calls, st.finish));
    case Gemini =>
      var st := Gem.ApplyAll(Gem.START, Gem.ObjectsOf(raw));
      GeminiGathered(Gem.START, Gem.ObjectsOf(raw));
      SortKeepsSettled(st.calls);
      NormalizeSettles(Turn("assistant", st.text, st.calls, st.finish));
    case Ollama =>
      var st := Oll.ApplyAll(Oll.START, NdLines(raw));
      OllamaGathered(Oll.START, NdLines(raw));
      SortKeepsSettled(st.calls);
      NormalizeSettles(Turn("assistant", st.text, st.calls, st.finish));
  }

  // ---------------------------------------------------------------- the codec check

  /** The decode, encode, decode loop: whether it settled, when the stream carried no error. */
  predicate Stable(p: Provider, raw: string) {
    var t := Decode(p, raw).turn;
    Equal(t, Decode(p, Encode(p, t, ZERO)).turn)
  }

  predicate ValidArgs(calls: seq<ToolCall>) {
    forall c <- calls :: ParseDoc(c.args).Some?
  }

  /** Settled calls survive where arguments are text, and elsewhere exactly when they are valid JSON. */
  lemma SettledSurvive(p: Provider, calls: seq<ToolCall>)
    requires Settled(calls)
    ensures AllSurvive(p, calls) <==> TextArgs(p) || ValidArgs(calls)
  {
    forall c <- calls ensures Survives(p, c) <==> TextArgs(p) || ParseDoc(c.args).Some? {
      CanonArgsSettles(c.args);
    }
  }

  /** A stream settles exactly when its dialect carries arguments as text or every call it decodes to
      has valid JSON arguments. */
  lemma StableIff(p: Provider, raw: string)
    ensures Stable(p, raw) <==> TextArgs(p) || ValidArgs(Decode(p, raw).turn.calls)
  {
    var t := Decode(p, raw).turn;
    DecodedShape(p, raw);
    EqualIffNormalizedSame(t, Decode(p, Encode(p, t, ZERO)).turn);
    DecodedShape(p, Encode(p, t, ZERO));
    NormalizeSettles(t);
    NormalizeSettles(Decode(p, Encode(p, t, ZERO)).turn);
    RoundTripIff(p, t, ZERO);
    SettledSurvive(p, t.calls);
  }
}
