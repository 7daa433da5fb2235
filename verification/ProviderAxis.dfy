/** The provider axis keeps a match key together. */
module ProviderAxis {
  import opened Lists
  import opened Options
  import opened Texts
  import opened Cassettes
  import opened MatchKey
  import opened Compose
  import Replay
  import Dialects
  import CassetteObject

  function ProviderName(p: Dialects.Provider): string {
    match p
    case Anthropic => "anthropic"
    case OpenAIChat => "openai-chat"
    case OpenAIResponses => "openai-responses"
    case Gemini => "gemini"
    case Ollama => "ollama"
  }

  function ProviderOf(it: Interaction): string {
    if it.kind.Mcp? then "mcp" else ProviderName(Dialects.ProviderForURL(it.request.url))
  }

  /** The key has the shape keys of this request have: for HTTP, method and path before the last line;
      for MCP, the mcp prefix. A key persisted when the request was recorded has it. */
  ghost predicate Routed(it: Interaction, key: string) {
    if it.kind.Mcp? then key != "" && key[0] == 'm'
    else
      && '\n' !in it.request.verb
      && exists tail: string :: '\n' !in tail && key == Upper(it.request.verb) + "\n" + it.request.url + "\n" + tail
  }

  lemma SameTails(a: string, x: string, b: string, y: string)
    requires a + "\n" + x == b + "\n" + y && '\n' !in x && '\n' !in y
    ensures a == b && x == y
  {
    var s := a + "\n" + x;
    assert s[|a|] == '\n' && (b + "\n" + y)[|b|] == '\n';
    assert forall i | |a| < i < |s| :: s[i] == x[i - |a| - 1];
    assert forall i | |b| < i < |s| :: (b + "\n" + y)[i] == y[i - |b| - 1];
    assert |a| == |b|;
    SameEnds(a + "\n", x, b + "\n", y);
    SameEnds(a, "\n", b, "\n");
  }

  /** Interactions of one key have one provider. */
  lemma OneKeyOneProvider(x: Interaction, y: Interaction, key: string)
    requires Routed(x, key) && Routed(y, key)
    ensures ProviderOf(x) == ProviderOf(y)
  {
    if !x.kind.Mcp? { HttpStart(x, key); }
    if !y.kind.Mcp? { HttpStart(y, key); }
    if !x.kind.Mcp? && !y.kind.Mcp? {
      var s: string :| '\n' !in s && key == Upper(x.request.verb) + "\n" + x.request.url + "\n" + s;
      var t: string :| '\n' !in t && key == Upper(y.request.verb) + "\n" + y.request.url + "\n" + t;
      SameTails(Upper(x.request.verb) + "\n" + x.request.url, s, Upper(y.request.verb) + "\n" + y.request.url, t);
      UpperShape(x.request.verb);
      UpperShape(y.request.verb);
      SameHeads(Upper(x.request.verb), x.request.url, Upper(y.request.verb), y.request.url);
    }
  }

  lemma HttpStart(x: Interaction, key: string)
    requires !x.kind.Mcp? && Routed(x, key)
    ensures key != "" && key[0] != 'm'
  {
    var u := Upper(x.request.verb);
    UpperShape(x.request.verb);
    var tail: string :| '\n' !in tail && key == u + "\n" + x.request.url + "\n" + tail;
    assert (u + "\n")[0] != 'm';
    assert key[0] == (u + "\n")[0];
  }

  lemma NoBreak(k: BodyKind, sum: string)
    requires '\n' !in sum
    ensures '\n' !in KindText(k) + ":" + sum
  {
  }

  /** Derived keys have the shape. */
  lemma DerivedIsRouted(o: Outside, it: Interaction, paths: seq<string>)
    requires Shaped(o) && '\n' !in it.request.verb && !it.kind.OtherKind? && Derived(o, it, paths).Some?
    ensures Routed(it, Derived(o, it, paths).value)
  {
    if it.kind.Mcp? {
      McpStart(it.request.mcpMethod, it.request.mcpTool);
    } else {
      var x := InputOf(it.request);
      var d := BodyDigest(o, x.body, x.contentType, paths).value;
      DigestShape(o, x, paths);
      var tail := KindText(d.0) + ":" + d.1;
      NoBreak(d.0, d.1);
      assert Derived(o, it, paths).value == Upper(x.verb) + "\n" + x.path + "\n" + tail;
    }
  }

  lemma DigestShape(o: Outside, x: Input, paths: seq<string>)
    requires Shaped(o) && BodyDigest(o, x.body, x.contentType, paths).Some?
    ensures '\n' !in BodyDigest(o, x.body, x.contentType, paths).value.1
  {
  }

  /** Splitting by provider and stitching the parts back in any order replays like the original. */
  lemma ProviderSplitEquivalent(keyOf: KeyFn, f: File, order: seq<string>, policy: Replay.Policy)
    requires forall i | 0 <= i < |f.interactions| ::
      keyOf(f.interactions[i]).Some? ==> Routed(f.interactions[i], keyOf(f.interactions[i]).value)
    requires Distinct(order) && Elements(order) == Names(ProviderOf, f.interactions)
    ensures Equivalent(keyOf, Stitched(Parts(ProviderOf, f, order)).interactions, f.interactions, policy)
  {
    var items := f.interactions;
    forall i, j | 0 <= i < |items| && 0 <= j < |items| && keyOf(items[i]).Some? && keyOf(items[i]) == keyOf(items[j])
      ensures ProviderOf(items[i]) == ProviderOf(items[j])
    {
      OneKeyOneProvider(items[i], items[j], keyOf(items[i]).value);
    }
    SplitStitchEquivalent(ProviderOf, keyOf, f, order, policy);
  }

  // ---------------------------------------------------------------- under each file's own settings

  /** The keys a recording is indexed by: persisted ones, else derived under its own match settings. */
  function FileKeys(o: Outside, f: File): KeyFn {
    it => CassetteObject.KeyOf(Deriving(o), VolatilePaths(f.spec), it)
  }

  /** The keys live requests are looked up by, under the same settings. A request whose body cannot be
      digested fails before it is looked up. */
  function LiveKeys(o: Outside, xs: seq<Input>, paths: seq<string>): seq<string> {
    if xs == [] then []
    else
      var k := Key(o, xs[0], paths);
      (if k.Some? then [k.value] else []) + LiveKeys(o, xs[1..], paths)
  }

  /** What a recording, opened by itself, answers to the t-th of a run of live requests. */
  function Replayed(o: Outside, f: File, policy: Replay.Policy, xs: seq<Input>, t: nat): Option<Response> {
    var keys := LiveKeys(o, xs, VolatilePaths(f.spec));
    if t < |keys| then Answered(FileKeys(o, f), f.interactions, policy, keys, t) else None
  }

  lemma {:induction false} LiveKeysSame(o: Outside, xs: seq<Input>, ps: seq<string>, qs: seq<string>)
    requires SameStrings(ps, qs)
    ensures LiveKeys(o, xs, ps) == LiveKeys(o, xs, qs)
  {
    if xs != [] {
      KeyBySet(o, xs[0], ps, qs);
      LiveKeysSame(o, xs[1..], ps, qs);
    }
  }

  lemma FileKeysSame(o: Outside, f: File, g: File, it: Interaction)
    requires SameStrings(VolatilePaths(f.spec), VolatilePaths(g.spec))
    ensures FileKeys(o, f)(it) == FileKeys(o, g)(it)
  {
    var ps, qs := VolatilePaths(f.spec), VolatilePaths(g.spec);
    DerivedBySet(o, it, ps, qs);
    CassetteObject.KeyOfDerived(Deriving(o), ps, qs, it);
  }

  /** Persisted keys have the shape their request gives them; methods are one line. */
  ghost predicate WellKeyed(it: Interaction) {
    '\n' !in it.request.verb && (it.request.matchKey != "" ==> Routed(it, it.request.matchKey))
  }

  lemma IndexedIsRouted(o: Outside, f: File, it: Interaction)
    requires Shaped(o) && WellKeyed(it) && FileKeys(o, f)(it).Some?
    ensures Routed(it, FileKeys(o, f)(it).value)
  {
    if it.request.matchKey == "" { DerivedIsRouted(o, it, VolatilePaths(f.spec)); }
  }

  lemma SameKeysAnswer(k: KeyFn, l: KeyFn, items: seq<Interaction>, policy: Replay.Policy, requests: seq<string>, t: nat)
    requires t < |requests| && forall it <- items :: k(it) == l(it)
    ensures Answered(k, items, policy, requests, t) == Answered(l, items, policy, requests, t)
  {
    MapSeqSame(k, l, items);
  }

  lemma {:induction false} NothingParts(f: File, order: seq<string>)
    requires f.interactions == []
    ensures Stitched(Parts(ProviderOf, f, order)).interactions == []
  {
    if order != [] {
      var n := |order| - 1;
      NothingParts(f, order[..n]);
      assert Parts(ProviderOf, f, order)[..n] == Parts(ProviderOf, f, order[..n]);
    }
  }

  lemma NothingAnswers(k: KeyFn, policy: Replay.Policy, requests: seq<string>, t: nat)
    requires t < |requests|
    ensures Answered(k, [], policy, requests, t) == None
  {
  }

  /** Split by provider, stitch the parts back in any order, and open the result under the settings it
      carries: every run of live requests, keyed under those settings, gets the answers the original
      gives under its own. */
  lemma LiveSplitEquivalent(o: Outside, f: File, order: seq<string>, policy: Replay.Policy, xs: seq<Input>, t: nat)
    requires Shaped(o) && forall i | 0 <= i < |f.interactions| :: WellKeyed(f.interactions[i])
    requires Distinct(order) && Elements(order) == Names(ProviderOf, f.interactions)
    ensures Replayed(o, Stitched(Parts(ProviderOf, f, order)), policy, xs, t) == Replayed(o, f, policy, xs, t)
  {
    var s := Stitched(Parts(ProviderOf, f, order));
    var items := f.interactions;
    if items == [] {
      NothingParts(f, order);
      var keys, own := LiveKeys(o, xs, VolatilePaths(s.spec)), LiveKeys(o, xs, VolatilePaths(f.spec));
      if t < |keys| { NothingAnswers(FileKeys(o, s), policy, keys, t); }
      if t < |own| { NothingAnswers(FileKeys(o, f), policy, own, t); }
    } else {
      assert ProviderOf(items[0]) in Names(ProviderOf, items) && ProviderOf(items[0]) in Elements(order);
      PartsSettings(ProviderOf, f, order);
      LiveKeysSame(o, xs, VolatilePaths(s.spec), VolatilePaths(f.spec));
      var keys := LiveKeys(o, xs, VolatilePaths(f.spec));
      if t < |keys| {
        forall it ensures FileKeys(o, s)(it) == FileKeys(o, f)(it) { FileKeysSame(o, s, f, it); }
        SameKeysAnswer(FileKeys(o, s), FileKeys(o, f), s.interactions, policy, keys, t);
        forall i | 0 <= i < |items| && FileKeys(o, f)(items[i]).Some? ensures Routed(items[i], FileKeys(o, f)(items[i]).value) {
          IndexedIsRouted(o, f, items[i]);
        }
        ProviderSplitEquivalent(FileKeys(o, f), f, order, policy);
      }
    }
  }
}
