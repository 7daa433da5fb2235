/** A ported recording, replayed. */
module PortReplay {
  import opened Lists
  import opened Options
  import opened Texts
  import opened Records
  import opened Transcript
  import opened Cassettes
  import opened Dialects
  import opened MatchKey
  import opened Replay
  import opened Port
  import Compose
  import Envelopes
  import ProviderAxis

  const JSON := "application/json"

  /** Ported requests are keyed as JSON requests, no path volatile. */
  ghost predicate KeyedAsJson(o: Outside, sh: Shaper) {
    forall verb, url, body :: Key(o, Input(verb, url, body, JSON), []) == Some(sh.key(verb, url, body))
  }

  /** The key function of a program whose media type of a JSON request says json. */
  lemma SomeShaper(o: Outside, model: string -> string, body: (Provider, Provider, string) -> string)
    returns (sh: Shaper)
    requires Contains(o.media(JSON), "json")
    ensures KeyedAsJson(o, sh) && sh.model == model && sh.body == body
  {
    sh := Shaper(model, body, (verb, url, text) =>
      var k := Key(o, Input(verb, url, text, JSON), []); if k.Some? then k.value else "");
  }

  /** The request a client of the target dialect sends for a recorded one. */
  function Reshaped(sh: Shaper, it: Interaction, to: Provider): Input {
    Input(it.request.verb, RequestPath(to),
          sh.body(ProviderForURL(it.request.url), to, Bytes(it.request.body)), JSON)
  }

  lemma OneHeader(name: string, value: string)
    ensures HeaderValue([Header(name, [value])], name) == value
  {
  }

  lemma JsonRequestRead(verb: string, url: string, body: string, key: string)
    ensures var r := JsonRequest(verb, url, body, key);
      && InputOf(r) == Input(verb, url, body, JSON) && r.matchKey == key
      && r.bodySum == "" && r.mcpMethod == "" && r.mcpTool == ""
  {
    OneHeader("Content-Type", JSON);
  }

  lemma EventStreamRead(body: string)
    requires body != ""
    ensures var r := EventStream(body);
      && r.status == 200 && r.streaming && r.error == "" && r.timing == [] && r.body == Some(body)
      && HeaderValue(r.headers, "Content-Type") == "text/event-stream"
  {
    OneHeader("Content-Type", "text/event-stream");
  }

  lemma KeyNonEmpty(o: Outside, x: Input, paths: seq<string>)
    requires Key(o, x, paths).Some?
    ensures Key(o, x, paths).value != ""
  {
  }

  /** The turn a recorded stream decodes to. */
  function SourceTurn(it: Interaction): Turn {
    Decode(ProviderForURL(it.request.url), Bytes(it.response.body)).turn
  }

  /** What is stored of a re-encoded turn, field by field: a JSON request of the target dialect under its own
      key, and a 200 that streams the turn. */
  lemma PortedFields(o: Outside, sh: Shaper, it: Interaction, i: nat, to: Provider)
    requires KeyedAsJson(o, sh) && Transpiles(it, to)
    ensures var out, x := PortOne(sh, it, i, to), Reshaped(sh, it, to);
      && out.kind == Http && InputOf(out.request) == x && Key(o, x, []) == Some(out.request.matchKey)
      && out.request.matchKey != "" && out.request.bodySum == "" && out.request.mcpMethod == "" && out.request.mcpTool == ""
    ensures var r := PortOne(sh, it, i, to).response;
      && r.status == 200 && r.streaming && r.error == "" && r.timing == []
      && HeaderValue(r.headers, "Content-Type") == "text/event-stream"
      && r.body == Some(Encode(to, SourceTurn(it),
           Envelopes.Envelope("msg_ported_" + NatText(i + 1), sh.model(Bytes(it.request.body)), [], 0, 0)))
  {
    var x, text := Reshaped(sh, it, to), Encode(to, SourceTurn(it), Envelope(sh, it, i));
    KeyNonEmpty(o, x, []);
    JsonRequestRead(x.verb, x.path, x.body, sh.key(x.verb, x.path, x.body));
    EncodeStarts(to, SourceTurn(it), Envelope(sh, it, i));
    EventStreamRead(text);
    PortedAs(sh, it, i, to, text);
  }

  lemma PortedAs(sh: Shaper, it: Interaction, i: nat, to: Provider, text: string)
    requires Transpiles(it, to) && text == Encode(to, SourceTurn(it), Envelope(sh, it, i))
    ensures var x := Reshaped(sh, it, to);
      PortOne(sh, it, i, to)
      == Interaction(Http, JsonRequest(x.verb, x.path, x.body, sh.key(x.verb, x.path, x.body)), EventStream(text))
  {
  }

  /** A live request finds a ported interaction exactly when it goes to the request path of the target, by
      the recorded method, with a body that means what the re-shaped one means. */
  lemma PortedIsFoundIff(o: Outside, sh: Shaper, it: Interaction, i: nat, to: Provider, x: Input)
    requires KeyedAsJson(o, sh) && Transpiles(it, to) && Shaped(o) && Key(o, x, []).Some?
    requires BodiesTold(o, x, Reshaped(sh, it, to), []) && '\n' !in x.verb && '\n' !in it.request.verb
    ensures Key(o, x, []) == Some(PortOne(sh, it, i, to).request.matchKey)
      <==> && Upper(x.verb) == Upper(it.request.verb) && x.path == RequestPath(to)
           && MeaningOf(o, x.body, x.contentType, []) == MeaningOf(o, Reshaped(sh, it, to).body, JSON, [])
  {
    PortedFields(o, sh, it, i, to);
    KeyDecides(o, x, Reshaped(sh, it, to), []);
  }

  /** Each element of a list comes from the one at its place, given the place. */
  ghost predicate EachBy<A, B>(f: (A, nat) -> B, from: seq<A>, i: nat, to: seq<B>) {
    |to| == |from| && forall k: nat | k < |from| :: to[k] == f(from[k], i + k)
  }

  lemma EachByCons<A, B>(f: (A, nat) -> B, from: seq<A>, i: nat, to: seq<B>)
    requires from != [] && EachBy(f, from[1..], i + 1, to)
    ensures EachBy(f, from, i, [f(from[0], i)] + to)
  {
    var all := [f(from[0], i)] + to;
    forall k: nat | k < |from| ensures all[k] == f(from[k], i + k) {
      if k > 0 { assert from[k] == from[1..][k - 1] && to[k - 1] == f(from[1..][k - 1], i + 1 + (k - 1)); }
    }
  }

  lemma {:induction false} PortedEach(sh: Shaper, f: (Interaction, nat) -> Interaction, items: seq<Interaction>, i: nat,
                                      to: Provider)
    requires forall it, j :: f(it, j) == PortOne(sh, it, j, to)
    ensures EachBy(f, items, i, PortFrom(sh, items, i, to))
  {
    if items != [] {
      PortedEach(sh, f, items[1..], i + 1, to);
      EachByCons(f, items, i, PortFrom(sh, items[1..], i + 1, to));
      assert f(items[0], i) == PortOne(sh, items[0], i, to);
    }
  }

  lemma PortedFileAt(sh: Shaper, f: File, to: Provider, k: nat)
    requires k < |f.interactions|
    ensures PortFile(sh, f, to).interactions[k] == PortOne(sh, f.interactions[k], k, to)
  {
    var one := (it, j: nat) => PortOne(sh, it, j, to);
    PortedEach(sh, one, f.interactions, 0, to);
    assert PortFile(sh, f, to).interactions[k] == one(f.interactions[k], 0 + k);
  }

  /** A run that asks for a ported interaction, as often before as its key stands before it, gets its ported
      response. */
  lemma PortedIsServed(o: Outside, sh: Shaper, f: File, to: Provider, policy: Policy, requests: seq<string>, t: nat,
                       k: nat)
    requires KeyedAsJson(o, sh) && t < |requests| && k < |f.interactions| && Transpiles(f.interactions[k], to)
    requires Some(requests[t]) == Key(o, Reshaped(sh, f.interactions[k], to), [])
    requires var out := PortFile(sh, f, to);
      |Group(Compose.KeysBy(ProviderAxis.FileKeys(o, out), out.interactions)[..k], requests[t])|
      == Times(requests[..t], requests[t])
    ensures var out := PortFile(sh, f, to);
      Compose.Answered(ProviderAxis.FileKeys(o, out), out.interactions, policy, requests, t)
      == Some(out.interactions[k].response)
  {
    PortedFileKey(o, sh, f, to, k);
    PersistedIsServed(o, PortFile(sh, f, to), policy, requests, t, k);
  }

  lemma PortedFileKey(o: Outside, sh: Shaper, f: File, to: Provider, k: nat)
    requires KeyedAsJson(o, sh) && k < |f.interactions| && Transpiles(f.interactions[k], to)
    ensures var r := PortFile(sh, f, to).interactions[k].request;
      Key(o, Reshaped(sh, f.interactions[k], to), []) == Some(r.matchKey) && r.matchKey != ""
  {
    PortedFields(o, sh, f.interactions[k], k, to);
    PortedFileAt(sh, f, to, k);
  }

  lemma PersistedIsServed(o: Outside, f: File, policy: Policy, requests: seq<string>, t: nat, k: nat)
    requires t < |requests| && k < |f.interactions|
    requires f.interactions[k].request.matchKey == requests[t] != ""
    requires |Group(Compose.KeysBy(ProviderAxis.FileKeys(o, f), f.interactions)[..k], requests[t])|
          == Times(requests[..t], requests[t])
    ensures Compose.Answered(ProviderAxis.FileKeys(o, f), f.interactions, policy, requests, t)
         == Some(f.interactions[k].response)
  {
    InTurnServed(ProviderAxis.FileKeys(o, f), f.interactions, policy, requests, t, k);
  }

  /** A run that asks for the key of an interaction, as often before as the key stands before it, gets its
      response. */
  lemma InTurnServed(keyOf: Compose.KeyFn, items: seq<Interaction>, policy: Policy, requests: seq<string>, t: nat, k: nat)
    requires t < |requests| && k < |items| && keyOf(items[k]) == Some(requests[t])
    requires |Group(Compose.KeysBy(keyOf, items)[..k], requests[t])| == Times(requests[..t], requests[t])
    ensures Compose.Answered(keyOf, items, policy, requests, t) == Some(items[k].response)
  {
    var keys := Compose.KeysBy(keyOf, items);
    MapSeqAt(keyOf, items, k);
    GroupHas(keys, requests[t], k);
    OrderedReplay(keys, policy, requests, t);
  }

  lemma {:induction false} AskedInOrder(keys: Keys, requests: seq<string>, key: string)
    requires |keys| == |requests| && forall k | 0 <= k < |keys| :: keys[k] == Some(requests[k])
    ensures |Group(keys, key)| == Times(requests, key)
  {
    if keys != [] {
      var n := |keys| - 1;
      AskedInOrder(keys[..n], requests[..n], key);
      assert requests == requests[..n] + [requests[n]];
      TimesOne(requests[..n], requests[n], key);
    }
  }

  /** Each request asks for the key of the interaction at its place. */
  ghost predicate AskedFor(keys: Keys, requests: seq<string>) {
    |keys| == |requests| && forall k | 0 <= k < |keys| :: keys[k] == Some(requests[k])
  }

  lemma InOrderServed(keyOf: Compose.KeyFn, items: seq<Interaction>, policy: Policy, requests: seq<string>, t: nat)
    requires AskedFor(Compose.KeysBy(keyOf, items), requests) && t < |requests|
    ensures Compose.Answered(keyOf, items, policy, requests, t) == Some(items[t].response)
  {
    AskedInOrder(Compose.KeysBy(keyOf, items)[..t], requests[..t], requests[t]);
    MapSeqAt(keyOf, items, t);
    InTurnServed(keyOf, items, policy, requests, t, t);
  }

  function KeyAsked(sh: Shaper, it: Interaction, to: Provider): string {
    var r := Reshaped(sh, it, to); sh.key(r.verb, r.path, r.body)
  }

  function KeysAsked(sh: Shaper, items: seq<Interaction>, to: Provider): seq<string> {
    MapSeq(it => KeyAsked(sh, it, to), items)
  }

  /** A live request that is the re-shaped one, its method in any case. */
  predicate Reissues(x: Input, sh: Shaper, it: Interaction, to: Provider) {
    var r := Reshaped(sh, it, to);
    Upper(x.verb) == Upper(r.verb) && x.path == r.path && x.body == r.body && x.contentType == JSON
  }

  lemma {:induction false} ReissuedKeys(o: Outside, sh: Shaper, items: seq<Interaction>, to: Provider, xs: seq<Input>)
    requires KeyedAsJson(o, sh) && |xs| == |items| && forall k | 0 <= k < |xs| :: Reissues(xs[k], sh, items[k], to)
    ensures ProviderAxis.LiveKeys(o, xs, []) == KeysAsked(sh, items, to)
  {
    if xs != [] {
      ReissuedKeys(o, sh, items[1..], to, xs[1..]);
      var r := Reshaped(sh, items[0], to);
      assert Key(o, xs[0], []) == Key(o, r, []) == Some(sh.key(r.verb, r.path, r.body));
    }
  }

  /** A 200 that streams a turn, which is read back exactly when the dialect can carry its arguments. */
  predicate Streams(r: Response, turn: Turn, to: Provider) {
    && r.status == 200 && r.streaming && r.body.Some? && HeaderValue(r.headers, "Content-Type") == "text/event-stream"
    && (Decode(to, r.body.value).turn == turn <==> TextArgs(to) || ValidArgs(turn.calls))
  }

  lemma PortedStreams(o: Outside, sh: Shaper, it: Interaction, i: nat, to: Provider)
    requires KeyedAsJson(o, sh) && Transpiles(it, to)
    ensures Streams(PortOne(sh, it, i, to).response, SourceTurn(it), to)
  {
    PortedFields(o, sh, it, i, to);
    TurnCarried(sh, it, i, to);
  }

  lemma SameStreams(r: Response, s: Response, turn: Turn, to: Provider)
    requires r == s && Streams(r, turn, to)
    ensures Streams(s, turn, to)
  {
  }

  lemma SessionStreams(o: Outside, sh: Shaper, f: File, to: Provider, k: nat)
    requires KeyedAsJson(o, sh) && k < |f.interactions| && Transpiles(f.interactions[k], to)
    ensures Streams(PortFile(sh, f, to).interactions[k].response, SourceTurn(f.interactions[k]), to)
  {
    PortedFileAt(sh, f, to, k);
    PortedStreams(o, sh, f.interactions[k], k, to);
    SameStreams(PortOne(sh, f.interactions[k], k, to).response, PortFile(sh, f, to).interactions[k].response,
      SourceTurn(f.interactions[k]), to);
  }

  lemma SessionKey(o: Outside, sh: Shaper, f: File, to: Provider, k: nat)
    requires KeyedAsJson(o, sh) && k < |f.interactions| && Transpiles(f.interactions[k], to)
    ensures var out := PortFile(sh, f, to);
      ProviderAxis.FileKeys(o, out)(out.interactions[k]) == Some(KeyAsked(sh, f.interactions[k], to))
  {
    PortedFileKey(o, sh, f, to, k);
  }

  lemma SessionKeys(o: Outside, sh: Shaper, f: File, to: Provider)
    requires KeyedAsJson(o, sh) && forall k | 0 <= k < |f.interactions| :: Transpiles(f.interactions[k], to)
    ensures var out := PortFile(sh, f, to);
      AskedFor(Compose.KeysBy(ProviderAxis.FileKeys(o, out), out.interactions), KeysAsked(sh, f.interactions, to))
  {
    var out := PortFile(sh, f, to);
    forall k | 0 <= k < |f.interactions|
      ensures Compose.KeysBy(ProviderAxis.FileKeys(o, out), out.interactions)[k]
           == Some(KeysAsked(sh, f.interactions, to)[k])
    {
      SessionKey(o, sh, f, to, k);
      MapSeqAt(ProviderAxis.FileKeys(o, out), out.interactions, k);
      MapSeqAt(it => KeyAsked(sh, it, to), f.interactions, k);
    }
  }

  /** A recording of streamed turns of other dialects, ported, and its requests issued again in the shape of
      the target and in the recorded order: under any policy the t-th gets the t-th turn, streamed with
      status 200, and that turn is the recorded one exactly when the target can carry its arguments. */
  lemma PortedSessionReplays(o: Outside, sh: Shaper, f: File, to: Provider, policy: Policy, xs: seq<Input>, t: nat)
    requires KeyedAsJson(o, sh) && |xs| == |f.interactions| && t < |xs|
    requires forall k | 0 <= k < |xs| :: Transpiles(f.interactions[k], to)
    requires forall k | 0 <= k < |xs| :: Reissues(xs[k], sh, f.interactions[k], to)
    ensures var got := ProviderAxis.Replayed(o, PortFile(sh, f, to), policy, xs, t);
      && got == Some(PortFile(sh, f, to).interactions[t].response)
      && Streams(got.value, SourceTurn(f.interactions[t]), to)
  {
    var out := PortFile(sh, f, to);
    ReissuedKeys(o, sh, f.interactions, to, xs);
    SessionKeys(o, sh, f, to);
    InOrderServed(ProviderAxis.FileKeys(o, out), out.interactions, policy, KeysAsked(sh, f.interactions, to), t);
    SessionStreams(o, sh, f, to, t);
  }

  lemma TurnCarried(sh: Shaper, it: Interaction, i: nat, to: Provider)
    requires Transpiles(it, to)
    ensures var out := PortOne(sh, it, i, to).response;
      var turn := SourceTurn(it);
      out.body.Some? && (Decode(to, out.body.value).turn == turn <==> TextArgs(to) || ValidArgs(turn.calls))
  {
    DecodedShape(ProviderForURL(it.request.url), it.response.body.value);
    ReencodedIff(to, SourceTurn(it), Envelope(sh, it, i));
    PortedAs(sh, it, i, to, Encode(to, SourceTurn(it), Envelope(sh, it, i)));
  }
}
