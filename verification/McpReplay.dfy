/** What the proxy records, field by field, and replayed. */
module McpReplay {
  import opened Lists
  import opened Options
  import opened Cassettes
  import opened MatchKey
  import opened Replay
  import opened McpProxy
  import Compose
  import ProviderAxis

  /** A line that asks for a tool call or for the list of tools. */
  predicate AsksTools(f: Option<Frame>, id: string) {
    f.Some? && f.value.id == id && id != "" && (f.value.verb == "tools/call" || f.value.verb == "tools/list")
  }

  /** A line that carries a result. */
  predicate Replies(f: Option<Frame>, id: string, result: string) {
    f.Some? && f.value.id == id && id != "" && f.value.result == result && result != ""
  }

  /** The last line that asks for tools under an id. */
  predicate LastAsk(parse: Parse, client: seq<string>, id: string, j: int) {
    0 <= j < |client| && AsksTools(parse(client[j]), id) && forall k | j < k < |client| :: !AsksTools(parse(client[k]), id)
  }

  lemma RequestOfLine(parse: Parse, line: string, id: string)
    ensures (RequestOf(parse, line).Some? && RequestOf(parse, line).value.0 == id) <==> AsksTools(parse(line), id)
    ensures AsksTools(parse(line), id) ==>
      var f := parse(line).value;
      RequestOf(parse, line) == Some((id, PendingCall(f.verb, if f.verb == "tools/call" then f.tool else "", f.body)))
  {
  }

  lemma {:induction false} AskedAt(parse: Parse, client: seq<string>, id: string, j: int)
    requires LastAsk(parse, client, id, j)
    ensures var f := parse(client[j]).value;
      Asked(parse, client, id) == Some(PendingCall(f.verb, if f.verb == "tools/call" then f.tool else "", f.body))
  {
    var n := |client| - 1;
    RequestOfLine(parse, client[n], id);
    if j < n {
      assert LastAsk(parse, client[..n], id, j);
      AskedAt(parse, client[..n], id, j);
    }
  }

  lemma {:induction false} NeverAsked(parse: Parse, client: seq<string>, id: string)
    requires forall k | 0 <= k < |client| :: !AsksTools(parse(client[k]), id)
    ensures Asked(parse, client, id) == None
  {
    if client != [] {
      RequestOfLine(parse, client[|client| - 1], id);
      NeverAsked(parse, client[..|client| - 1], id);
    }
  }

  /** What is recorded of a request line and the line that carries its result, field by field. */
  predicate Holds(it: Interaction, asked: Frame, result: string) {
    && it.kind == Mcp && it.request.mcpMethod == asked.verb
    && it.request.mcpTool == (if asked.verb == "tools/call" then asked.tool else "")
    && Bytes(it.request.body) == asked.body && Bytes(it.response.body) == result
    && it.request.verb == "" && it.request.url == "" && it.request.headers == [] && it.request.matchKey == ""
    && it.response.status == 0 && it.response.headers == [] && !it.response.streaming && it.response.error == ""
    && it.response.timing == []
  }

  /** The i-th server line answers the j-th client line, which asked for tools; before it came as many such
      answers as there are recordings before its own, which holds method, tool and arguments of the asking
      line and the result of the answering one. */
  lemma RecordedFields(parse: Parse, client: seq<string>, server: seq<string>, i: nat, j: nat, id: string, result: string)
    requires i < |server| && Replies(parse(server[i]), id, result) && LastAsk(parse, client, id, j)
    ensures var k := ToolResults(parse, client, server[..i]);
      k < |Paired(parse, client, server)| && Holds(Paired(parse, client, server)[k], parse(client[j]).value, result)
  {
    AskedAt(parse, client, id, j);
    PairedExactly(parse, client, server, i);
  }

  /** A result under an id that asked for no tools is not recorded. */
  lemma OthersUnrecorded(parse: Parse, client: seq<string>, server: seq<string>, line: string)
    requires forall id, result | Replies(parse(line), id, result) ::
      forall k | 0 <= k < |client| :: !AsksTools(parse(client[k]), id)
    ensures Paired(parse, client, server + [line]) == Paired(parse, client, server)
  {
    PairedSnoc(parse, client, server, line);
    var r := ResultOf(parse, line);
    if r.Some? {
      assert Replies(parse(line), r.value.0, r.value.1);
      NeverAsked(parse, client, r.value.0);
    }
    NothingAdded(Paired(parse, client, server));
  }

  // ---------------------------------------------------------------- replayed

  /** The last line that asks for tools under an id, as it reads. */
  function AskedBy(parse: Parse, client: seq<string>, id: string): (r: Option<Frame>)
    ensures r.Some? ==> exists j :: LastAsk(parse, client, id, j) && parse(client[j]) == r
    ensures r.None? ==> forall k | 0 <= k < |client| :: !AsksTools(parse(client[k]), id)
  {
    if client == [] then None
    else
      var n := |client| - 1;
      if AsksTools(parse(client[n]), id) then
        assert LastAsk(parse, client, id, n);
        parse(client[n])
      else
        var r := AskedBy(parse, client[..n], id);
        assert forall j | LastAsk(parse, client[..n], id, j) :: LastAsk(parse, client, id, j) && client[..n][j] == client[j];
        r
  }

  /** The key of a call: method, tool and canonical arguments. */
  function CallKey(o: Outside, f: Frame): string {
    McpKey(o, f.verb, if f.verb == "tools/call" then f.tool else "", f.body)
  }

  /** The results relayed for the calls of one key, in the order they came. */
  function Results(o: Outside, parse: Parse, client: seq<string>, server: seq<string>, key: string): seq<string> {
    if server == [] then []
    else
      var n := |server| - 1;
      var f := parse(server[n]);
      var asked := if f.Some? && f.value.id != "" && f.value.result != "" then AskedBy(parse, client, f.value.id) else None;
      Results(o, parse, client, server[..n], key)
      + if asked.Some? && CallKey(o, asked.value) == key then [f.value.result] else []
  }

  /** An interaction with its key derived anew. */
  function Keyed(o: Outside, it: Interaction): Interaction {
    var r := Rekeyed(Deriving(o), it, []);
    if r.Some? then r.value else it
  }

  /** The recording as it is saved, every key derived. */
  function Saved(o: Outside, rec: seq<Interaction>): File {
    File("", None, None, MapSeq(it => Keyed(o, it), rec))
  }

  function Reply(result: string): Response {
    Response(0, [], false, NewBody(result), "", [])
  }

  lemma RecordedAs(o: Outside, f: Frame, result: string)
    requires result != "" && (f.verb == "tools/call" || f.verb == "tools/list")
    ensures var it := Keyed(o, Recording(PendingCall(f.verb, if f.verb == "tools/call" then f.tool else "", f.body), result));
      && it.request.matchKey == CallKey(o, f) != "" && it.response == Reply(result)
  {
    McpStart(f.verb, if f.verb == "tools/call" then f.tool else "");
  }

  lemma AskedIs(parse: Parse, client: seq<string>, id: string)
    ensures var f := AskedBy(parse, client, id);
      Asked(parse, client, id)
      == if f.None? then None
         else Some(PendingCall(f.value.verb, if f.value.verb == "tools/call" then f.value.tool else "", f.value.body))
  {
    var f := AskedBy(parse, client, id);
    if f.None? {
      NeverAsked(parse, client, id);
    } else {
      var j :| LastAsk(parse, client, id, j) && parse(client[j]) == f;
      AskedAt(parse, client, id, j);
    }
  }

  /** The responses recorded under a key are the results relayed for it. */
  lemma {:induction false} RecordedReplies(o: Outside, keyOf: Compose.KeyFn, parse: Parse, client: seq<string>,
                                           server: seq<string>, key: string)
    requires forall it: Interaction | it.request.matchKey != "" :: keyOf(it) == Some(it.request.matchKey)
    ensures Compose.Replies(keyOf, Saved(o, Paired(parse, client, server)).interactions, key)
         == MapSeq(Reply, Results(o, parse, client, server, key))
  {
    if server != [] {
      var n := |server| - 1;
      RecordedReplies(o, keyOf, parse, client, server[..n], key);
      var f, r := parse(server[n]), ResultOf(parse, server[n]);
      if r.Some? { AskedIs(parse, client, r.value.0); }
      if r.Some? && Asked(parse, client, r.value.0).Some? {
        var asked := AskedBy(parse, client, r.value.0).value;
        RecordedAs(o, asked, r.value.1);
        OneMoreRecorded(o, keyOf, Paired(parse, client, server[..n]),
          Recording(Asked(parse, client, r.value.0).value, r.value.1),
          key, Results(o, parse, client, server[..n], key), r.value.1);
      } else {
        NothingAdded(Paired(parse, client, server[..n]));
        NothingAdded(Results(o, parse, client, server[..n], key));
      }
    }
  }

  lemma OneMoreRecorded(o: Outside, keyOf: Compose.KeyFn, rec: seq<Interaction>, it: Interaction, key: string,
                        results: seq<string>, result: string)
    requires keyOf(Keyed(o, it)).Some? && Keyed(o, it).response == Reply(result)
    requires Compose.Replies(keyOf, Saved(o, rec).interactions, key) == MapSeq(Reply, results)
    ensures Compose.Replies(keyOf, Saved(o, rec + [it]).interactions, key)
         == MapSeq(Reply, results + if keyOf(Keyed(o, it)) == Some(key) then [result] else [])
  {
    var items := Saved(o, rec).interactions;
    MapSeqSnoc(i => Keyed(o, i), rec, it);
    assert Saved(o, rec + [it]).interactions == items + [Keyed(o, it)];
    assert (items + [Keyed(o, it)])[..|items|] == items;
    MapSeqSnoc(Reply, results, result);
    NothingAdded(results);
    NothingAdded(MapSeq(Reply, results));
  }

  /** The recording of any session of the proxy, saved and replayed: the i-th request for a call gets the
      i-th result that was relayed for calls of the same method, tool and canonical arguments, whatever else
      is requested, and all results relayed for it come first. */
  lemma ProxyReplays(o: Outside, parse: Parse, actions: seq<Action>, policy: Policy, calls: seq<Frame>, t: nat)
    requires Session(parse, IDLE, actions) && t < |calls|
    requires End(parse, IDLE, actions).client.ClientIdle? && End(parse, IDLE, actions).server.ServerIdle?
    ensures var p := End(parse, IDLE, actions);
      var f, keys := Saved(o, p.shared.rec), MapSeq(c => CallKey(o, c), calls);
      var results, n := Results(o, parse, p.fromClient, p.fromServer, keys[t]), Times(keys[..t], keys[t]);
      n < |results| ==>
        Compose.Answered(ProviderAxis.FileKeys(o, f), f.interactions, policy, keys, t) == Some(Reply(results[n]))
  {
    var p := End(parse, IDLE, actions);
    var f, keys := Saved(o, p.shared.rec), MapSeq(c => CallKey(o, c), calls);
    var keyOf := ProviderAxis.FileKeys(o, f);
    PumpsCorrelate(parse, actions);
    RecordedReplies(o, keyOf, parse, p.fromClient, p.fromServer, keys[t]);
    Compose.GroupReplies(keyOf, f.interactions, keys[t]);
    OrderedReplay(Compose.KeysBy(keyOf, f.interactions), policy, keys, t);
    var results, n := Results(o, parse, p.fromClient, p.fromServer, keys[t]), Times(keys[..t], keys[t]);
    if n < |results| { MapSeqAt(Reply, results, n); }
  }
}
