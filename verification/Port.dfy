/** Reading the turns of a recording, and re-encoding them into another dialect, along any chain of them. */
module Port {
  import opened Lists
  import opened Options
  import opened Json
  import opened Canon
  import opened Records
  import opened Sse
  import opened Transcript
  import opened Cassettes
  import opened Dialects

  /** Readings outside the streaming codecs: an MCP exchange as a turn, and the hash naming a unary body. */
  datatype Readers = Readers(mcpTurn: Interaction -> Turn, sha: string -> string)

  datatype View = View(turn: Turn, unary: bool, renderable: bool)

  function DecodeInteraction(r: Readers, it: Interaction): View {
    if it.kind == Mcp then View(r.mcpTurn(it), false, true)
    else if it.kind != Http || it.response.body.None? then View(Turn("", "", [], ""), false, false)
    else if !it.response.streaming then
      View(Turn("assistant", "unary:" + r.sha(CanonArgs(it.response.body.value)), [], ""), true, false)
    else View(Decode(ProviderForURL(it.request.url), it.response.body.value).turn, false, true)
  }

  function Shown(v: View): seq<Turn> {
    if v.renderable then [v.turn] else []
  }

  function CollectTurns(r: Readers, items: seq<Interaction>): seq<Turn> {
    if items == [] then []
    else
      var v := DecodeInteraction(r, items[0]);
      Shown(v) + CollectTurns(r, items[1..])
  }

  /** How a request is re-shaped for a target dialect: model name, new body, new key. */
  datatype Shaper = Shaper(model: string -> string, body: (Provider, Provider, string) -> string,
                           key: (string, string, string) -> string)

  /** A streaming http turn of another dialect whose stream carries no error. */
  predicate Transpiles(it: Interaction, to: Provider) {
    && it.kind == Http && it.response.body.Some? && it.response.streaming
    && ProviderForURL(it.request.url) != to
    && !Decode(ProviderForURL(it.request.url), it.response.body.value).failed
  }

  function Envelope(sh: Shaper, it: Interaction, i: nat): Envelopes.Envelope {
    Envelopes.Envelope("msg_ported_" + NatText(i + 1), sh.model(Bytes(it.request.body)), [], 0, 0)
  }

  function PortOne(sh: Shaper, it: Interaction, i: nat, to: Provider): Interaction {
    if !Transpiles(it, to) then it
    else
      var src := ProviderForURL(it.request.url);
      var t := Decode(src, it.response.body.value).turn;
      var body := sh.body(src, to, Bytes(it.request.body));
      var url := RequestPath(to);
      Interaction(Http, JsonRequest(it.request.verb, url, body, sh.key(it.request.verb, url, body)),
                  EventStream(Encode(to, t, Envelope(sh, it, i))))
  }

  function JsonRequest(verb: string, url: string, body: string, key: string): Request {
    Request(verb, url, [Header("Content-Type", ["application/json"])], "", "", NewBody(body), "", key)
  }

  function EventStream(body: string): Response {
    Response(200, [Header("Content-Type", ["text/event-stream"])], true, NewBody(body), "", [])
  }

  function PortFrom(sh: Shaper, items: seq<Interaction>, i: nat, to: Provider): (r: seq<Interaction>)
    ensures |r| == |items|
  {
    if items == [] then [] else [PortOne(sh, items[0], i, to)] + PortFrom(sh, items[1..], i + 1, to)
  }

  function CountTranspiled(items: seq<Interaction>, to: Provider): nat {
    if items == [] then 0 else (if Transpiles(items[0], to) then 1 else 0) + CountTranspiled(items[1..], to)
  }

  function PortFile(sh: Shaper, f: File, to: Provider): File {
    File(f.notice, f.contract, None, PortFrom(sh, f.interactions, 0, to))
  }

  method PortItem(sh: Shaper, it: Interaction, i: nat, to: Provider) returns (out: Interaction, ported: bool)
    ensures out == PortOne(sh, it, i, to) && ported == Transpiles(it, to)
  {
    out, ported := it, false;
    if it.kind == Http && it.response.body.Some? && it.response.streaming {
      var src := ProviderForURL(it.request.url);
      var d := Decode(src, it.response.body.value);
      if src != to && !d.failed {
        var response := Encode(to, d.turn, Envelope(sh, it, i));
        var body := sh.body(src, to, Bytes(it.request.body));
        var url := RequestPath(to);
        var key := sh.key(it.request.verb, url, body);
        out := Interaction(Http,
          Request(it.request.verb, url, [Header("Content-Type", ["application/json"])], "", "", NewBody(body), "", key),
          Response(200, [Header("Content-Type", ["text/event-stream"])], true, NewBody(response), "", []));
        ported := true;
      }
    }
  }

  /** The first i interactions have been ported. */
  predicate Ported(sh: Shaper, items: seq<Interaction>, to: Provider, i: nat, done: seq<Interaction>, count: nat) {
    && i <= |items|
    && PortFrom(sh, items, 0, to) == done + PortFrom(sh, items[i..], i, to)
    && CountTranspiled(items, to) == count + CountTranspiled(items[i..], to)
  }

  lemma PortedOne(sh: Shaper, items: seq<Interaction>, to: Provider, i: nat, done: seq<Interaction>, count: nat)
    requires i < |items| && Ported(sh, items, to, i, done, count)
    ensures Ported(sh, items, to, i + 1, done + [PortOne(sh, items[i], i, to)],
                   count + if Transpiles(items[i], to) then 1 else 0)
  {
    assert items[i..][1..] == items[i + 1..];
    Assoc(done, [PortOne(sh, items[i], i, to)], PortFrom(sh, items[i + 1..], i + 1, to));
  }

  method Port(sh: Shaper, f: File, to: Provider) returns (out: File, ported: nat)
    ensures out == PortFile(sh, f, to) && ported == CountTranspiled(f.interactions, to)
  {
    var items := f.interactions;
    var done: seq<Interaction> := [];
    ported := 0;
    var i := 0;
    while i < |items|
      invariant 0 <= i <= |items| && Ported(sh, items, to, i, done, ported)
    {
      var it, changed := PortItem(sh, items[i], i, to);
      PortedOne(sh, items, to, i, done, ported);
      done := done + [it];
      if changed { ported := ported + 1; }
      i := i + 1;
    }
    assert items[i..] == [] && done + [] == done;
    out := File(f.notice, f.contract, None, done);
  }

  // ---------------------------------------------------------------- what porting preserves

  /** The turn survives the target dialect, if it has to be re-encoded at all. */
  predicate PortSafe(it: Interaction, to: Provider) {
    Transpiles(it, to) ==>
      TextArgs(to) || ValidArgs(Decode(ProviderForURL(it.request.url), it.response.body.value).turn.calls)
  }

  lemma EncodeStarts(p: Provider, t: Turn, env: Envelopes.Envelope)
    ensures Encode(p, t, env) != ""
  {
    var n := Normalize(t);
    match p
    case Anthropic => RenderNonEmpty(Ant.Frames(n, env));
    case OpenAIChat => RenderNonEmpty(Oai.Frames(n, env));
    case OpenAIResponses => RenderNonEmpty(Rsp.Frames(n, env));
    case Gemini => assert |DataText(Print(Obj(Gem.Response(n, env))))| > 0;
    case Ollama =>
  }

  /** Re-encoding a decoded turn, and when it comes back. */
  lemma ReencodedIff(to: Provider, t: Turn, env: Envelopes.Envelope)
    requires t.role == "assistant" && IsNormalized(t) && Settled(t.calls)
    ensures NewBody(Encode(to, t, env)) == Some(Encode(to, t, env))
    ensures Decode(to, Encode(to, t, env)).turn == t <==> TextArgs(to) || ValidArgs(t.calls)
  {
    EncodeStarts(to, t, env);
    NormalizeSettles(t);
    RoundTripIff(to, t, env);
    SettledSurvive(to, t.calls);
  }

  lemma StreamedView(r: Readers, it: Interaction, p: Provider, raw: string)
    requires it.kind == Http && it.response.body == Some(raw) && it.response.streaming
    requires ProviderForURL(it.request.url) == p
    ensures DecodeInteraction(r, it) == View(Decode(p, raw).turn, false, true)
  {
  }

  lemma PortedShape(sh: Shaper, it: Interaction, i: nat, to: Provider, t: Turn, text: string)
    requires Transpiles(it, to) && t == Decode(ProviderForURL(it.request.url), it.response.body.value).turn
    requires text == Encode(to, t, Envelope(sh, it, i)) && NewBody(text) == Some(text)
    ensures var o := PortOne(sh, it, i, to);
      o.kind == Http && o.response.body == Some(text) && o.response.streaming && o.request.url == RequestPath(to)
  {
  }

  lemma PortedView(r: Readers, sh: Shaper, it: Interaction, i: nat, to: Provider, src: Provider, t: Turn)
    requires Transpiles(it, to) && src == ProviderForURL(it.request.url) && t == Decode(src, it.response.body.value).turn
    ensures DecodeInteraction(r, it) == View(t, false, true)
    ensures DecodeInteraction(r, PortOne(sh, it, i, to)) == View(Decode(to, Encode(to, t, Envelope(sh, it, i))).turn, false, true)
    ensures Decode(to, Encode(to, t, Envelope(sh, it, i))).turn == t <==> TextArgs(to) || ValidArgs(t.calls)
  {
    var text := Encode(to, t, Envelope(sh, it, i));
    DecodedShape(src, it.response.body.value);
    ReencodedIff(to, t, Envelope(sh, it, i));
    RequestPathRoutes(to);
    StreamedView(r, it, src, it.response.body.value);
    PortedShape(sh, it, i, to, t, text);
    StreamedView(r, PortOne(sh, it, i, to), to, text);
  }

  /** One interaction keeps its place among the turns, and keeps its turn exactly when it is safe. */
  lemma PortOneKeepsIff(r: Readers, sh: Shaper, it: Interaction, i: nat, to: Provider)
    ensures DecodeInteraction(r, PortOne(sh, it, i, to)).renderable == DecodeInteraction(r, it).renderable
    ensures DecodeInteraction(r, PortOne(sh, it, i, to)).unary == DecodeInteraction(r, it).unary
    ensures DecodeInteraction(r, PortOne(sh, it, i, to)) == DecodeInteraction(r, it) <==> PortSafe(it, to)
    ensures !DecodeInteraction(r, it).renderable ==> PortSafe(it, to)
  {
    if Transpiles(it, to) {
      var src := ProviderForURL(it.request.url);
      PortedView(r, sh, it, i, to, src, Decode(src, it.response.body.value).turn);
    }
  }

  lemma ShownSame(v: View, w: View, more: seq<Turn>, moreW: seq<Turn>)
    requires v.renderable == w.renderable && v.unary == w.unary && |more| == |moreW|
    ensures Shown(w) + moreW == Shown(v) + more <==> (v.renderable ==> w.turn == v.turn) && moreW == more
  {
    if v.renderable {
      assert ([w.turn] + moreW)[1..] == moreW && ([v.turn] + more)[1..] == more;
      assert ([w.turn] + moreW)[0] == w.turn && ([v.turn] + more)[0] == v.turn;
    } else {
      assert [] + moreW == moreW && [] + more == more;
    }
  }

  lemma HeadAndRest(r: Readers, x: Interaction, xs: seq<Interaction>, y: Interaction, ys: seq<Interaction>,
                    headSafe: bool, restSafe: bool)
    requires DecodeInteraction(r, y).renderable == DecodeInteraction(r, x).renderable
    requires DecodeInteraction(r, y).unary == DecodeInteraction(r, x).unary
    requires DecodeInteraction(r, y) == DecodeInteraction(r, x) <==> headSafe
    requires !DecodeInteraction(r, x).renderable ==> headSafe
    requires |CollectTurns(r, ys)| == |CollectTurns(r, xs)| && (CollectTurns(r, ys) == CollectTurns(r, xs) <==> restSafe)
    ensures |CollectTurns(r, [y] + ys)| == |CollectTurns(r, [x] + xs)|
    ensures CollectTurns(r, [y] + ys) == CollectTurns(r, [x] + xs) <==> headSafe && restSafe
  {
    assert ([y] + ys)[0] == y && ([y] + ys)[1..] == ys && ([x] + xs)[0] == x && ([x] + xs)[1..] == xs;
    ShownSame(DecodeInteraction(r, x), DecodeInteraction(r, y), CollectTurns(r, xs), CollectTurns(r, ys));
  }

  predicate AllSafe(items: seq<Interaction>, to: Provider) {
    items != [] ==> PortSafe(items[0], to) && AllSafe(items[1..], to)
  }

  /** As many turns, and the same ones exactly when all of them are safe. */
  predicate TurnsKept(r: Readers, items: seq<Interaction>, ported: seq<Interaction>, to: Provider) {
    && |CollectTurns(r, ported)| == |CollectTurns(r, items)|
    && (CollectTurns(r, ported) == CollectTurns(r, items) <==> AllSafe(items, to))
  }

  lemma KeepOne(r: Readers, sh: Shaper, it: Interaction, rest: seq<Interaction>, ported: seq<Interaction>, i: nat, to: Provider)
    requires TurnsKept(r, rest, ported, to)
    ensures TurnsKept(r, [it] + rest, [PortOne(sh, it, i, to)] + ported, to)
  {
    PortOneKeepsIff(r, sh, it, i, to);
    HeadAndRest(r, it, rest, PortOne(sh, it, i, to), ported, PortSafe(it, to), AllSafe(rest, to));
    assert ([it] + rest)[1..] == rest;
  }

  lemma {:induction false} TurnsKeptIff(r: Readers, sh: Shaper, items: seq<Interaction>, i: nat, to: Provider)
    ensures TurnsKept(r, items, PortFrom(sh, items, i, to), to)
  {
    if items != [] {
      TurnsKeptIff(r, sh, items[1..], i + 1, to);
      KeepOne(r, sh, items[0], items[1..], PortFrom(sh, items[1..], i + 1, to), i, to);
      assert items == [items[0]] + items[1..];
    }
  }

  lemma {:induction false} AllSafeEach(items: seq<Interaction>, to: Provider)
    ensures AllSafe(items, to) <==> forall k | 0 <= k < |items| :: PortSafe(items[k], to)
  {
    if items != [] {
      AllSafeEach(items[1..], to);
      forall k | 0 <= k < |items| - 1 ensures PortSafe(items[1..][k], to) == PortSafe(items[k + 1], to) {}
      forall k | 0 < k < |items| ensures PortSafe(items[k], to) == PortSafe(items[1..][k - 1], to) {}
    }
  }

  /** Porting keeps the recording's turns, copied-through ones included, exactly when every turn it
      re-encodes can be carried by the target: always for the dialects with textual arguments, and
      with valid JSON arguments for the others. */
  lemma PortPreservesIff(r: Readers, sh: Shaper, f: File, to: Provider)
    ensures CollectTurns(r, PortFile(sh, f, to).interactions) == CollectTurns(r, f.interactions)
       <==> forall k | 0 <= k < |f.interactions| :: PortSafe(f.interactions[k], to)
  {
    TurnsKeptIff(r, sh, f.interactions, 0, to);
    AllSafeEach(f.interactions, to);
  }

  // ---------------------------------------------------------------- chains of dialects

  /** Every streamed http turn decodes to calls with valid JSON arguments. */
  predicate Portable(items: seq<Interaction>) {
    forall k | 0 <= k < |items| :: PortableItem(items[k])
  }

  predicate PortableItem(it: Interaction) {
    it.kind == Http && it.response.body.Some? && it.response.streaming ==>
      ValidArgs(Decode(ProviderForURL(it.request.url), it.response.body.value).turn.calls)
  }

  lemma PortOnePortable(r: Readers, sh: Shaper, it: Interaction, i: nat, to: Provider)
    requires PortableItem(it)
    ensures PortSafe(it, to) && PortableItem(PortOne(sh, it, i, to))
  {
    if Transpiles(it, to) {
      var src := ProviderForURL(it.request.url);
      var t := Decode(src, it.response.body.value).turn;
      PortedView(r, sh, it, i, to, src, t);
      ViewPortable(r, PortOne(sh, it, i, to));
    }
  }

  /** An interaction is portable when what it is read as has valid JSON arguments. */
  lemma ViewPortable(r: Readers, it: Interaction)
    requires ValidArgs(DecodeInteraction(r, it).turn.calls)
    ensures PortableItem(it)
  {
    if it.kind == Http && it.response.body.Some? && it.response.streaming {
      StreamedView(r, it, ProviderForURL(it.request.url), it.response.body.value);
    }
  }

  lemma {:induction false} PortFromPortable(r: Readers, sh: Shaper, items: seq<Interaction>, i: nat, to: Provider)
    requires Portable(items)
    ensures Portable(PortFrom(sh, items, i, to)) && forall k | 0 <= k < |items| :: PortSafe(items[k], to)
  {
    if items != [] {
      PortOnePortable(r, sh, items[0], i, to);
      PortFromPortable(r, sh, items[1..], i + 1, to);
      forall k | 0 < k < |items| ensures PortSafe(items[k], to) { assert items[k] == items[1..][k - 1]; }
    }
  }

  function PortChain(sh: Shaper, f: File, tos: seq<Provider>): File
    decreases |tos|
  {
    if tos == [] then f else PortChain(sh, PortFile(sh, f, tos[0]), tos[1..])
  }

  /** Along any chain of dialects the turns stay what they were. */
  lemma {:induction false} ChainPreserves(r: Readers, sh: Shaper, f: File, tos: seq<Provider>)
    requires Portable(f.interactions)
    ensures CollectTurns(r, PortChain(sh, f, tos).interactions) == CollectTurns(r, f.interactions)
    decreases |tos|
  {
    if tos != [] {
      PortFromPortable(r, sh, f.interactions, 0, tos[0]);
      PortPreservesIff(r, sh, f, tos[0]);
      ChainPreserves(r, sh, PortFile(sh, f, tos[0]), tos[1..]);
    }
  }
}
