/** The MCP recording proxy and its two pumps. */
module McpProxy {
  import opened Options
  import opened Cassettes

  /** A tools request waiting for its result. */
  datatype PendingCall = PendingCall(verb: string, tool: string, body: string)

  /** A line read as a JSON-RPC frame; "" stands for an absent field. */
  datatype Frame = Frame(id: string, verb: string, tool: string, body: string, result: string)

  type Parse = string -> Option<Frame>

  predicate IsTools(verb: string) { verb == "tools/call" || verb == "tools/list" }

  /** Only a call names a tool. */
  function ToolOf(f: Frame): string { if f.verb == "tools/call" then f.tool else "" }

  /** The tools request on a line, by id. */
  function RequestOf(parse: Parse, line: string): Option<(string, PendingCall)> {
    var f := parse(line);
    if f.Some? && f.value.id != "" && IsTools(f.value.verb)
    then Some((f.value.id, PendingCall(f.value.verb, ToolOf(f.value), f.value.body)))
    else None
  }

  /** The result on a line, by id. */
  function ResultOf(parse: Parse, line: string): Option<(string, string)> {
    var f := parse(line);
    if f.Some? && f.value.id != "" && f.value.result != "" then Some((f.value.id, f.value.result)) else None
  }

  function Recording(c: PendingCall, result: string): Interaction {
    Interaction(Mcp, Request("", "", [], c.verb, c.tool, NewBody(c.body), "", ""),
                Response(0, [], false, NewBody(result), "", []))
  }

  /** What the two pumps share under the lock. */
  datatype Shared = Shared(pending: map<string, PendingCall>, rec: seq<Interaction>)

  function Registered(parse: Parse, s: Shared, line: string): Shared {
    var r := RequestOf(parse, line);
    if r.None? then s else s.(pending := s.pending[r.value.0 := r.value.1])
  }

  function Recorded(parse: Parse, s: Shared, line: string): Shared {
    var r := ResultOf(parse, line);
    if r.None? || r.value.0 !in s.pending then s
    else Shared(s.pending - {r.value.0}, s.rec + [Recording(s.pending[r.value.0], r.value.1)])
  }

  /** The two critical sections. */
  class Recorder {
    var pending: map<string, PendingCall>
    var rec: seq<Interaction>

    constructor ()
      ensures pending == map[] && rec == []
    {
      pending, rec := map[], [];
    }

    method Register(parse: Parse, line: string)
      modifies this`pending
      ensures Shared(pending, rec) == Registered(parse, old(Shared(pending, rec)), line)
    {
      var f := parse(line);
      if f.Some? && f.value.id != "" && f.value.verb != "" {
        if f.value.verb == "tools/call" {
          pending := pending[f.value.id := PendingCall(f.value.verb, f.value.tool, f.value.body)];
        } else if f.value.verb == "tools/list" {
          pending := pending[f.value.id := PendingCall(f.value.verb, "", f.value.body)];
        }
      }
    }

    method Record(parse: Parse, line: string)
      modifies this
      ensures Shared(pending, rec) == Recorded(parse, old(Shared(pending, rec)), line)
    {
      var f := parse(line);
      if f.None? || f.value.id == "" || f.value.result == "" { return; }
      if f.value.id in pending {
        var call := pending[f.value.id];
        pending := pending - {f.value.id};
        rec := rec + [Recording(call, f.value.result)];
      }
    }
  }

  // ---------------------------------------------------------------- the two pumps as one system

  /** Where the client pump is in its loop: a line is read, then registered, then forwarded. */
  datatype ClientAt = ClientIdle | HasRead(line: string) | HasRegistered(line: string)

  /** Where the server pump is: a line is read, then forwarded, then recorded. */
  datatype ServerAt = ServerIdle | HasTaken(line: string) | HasForwarded(line: string)

  datatype Proxy = Proxy(fromClient: seq<string>, toServer: seq<string>, fromServer: seq<string>, toClient: seq<string>,
                         client: ClientAt, server: ServerAt, shared: Shared)

  const IDLE := Proxy([], [], [], [], ClientIdle, ServerIdle, Shared(map[], []))

  datatype Action = ClientReads(line: string) | Registers | ForwardsRequest
                  | ServerReads(line: string) | ForwardsReply | Records

  /** One atomic action of either pump; none where the pump is not. */
  function Act(parse: Parse, p: Proxy, a: Action): Option<Proxy> {
    match a
    case ClientReads(line) =>
      if p.client.ClientIdle? then Some(p.(client := HasRead(line), fromClient := p.fromClient + [line])) else None
    case Registers =>
      if p.client.HasRead? then
        Some(p.(client := HasRegistered(p.client.line), shared := Registered(parse, p.shared, p.client.line)))
      else None
    case ForwardsRequest =>
      if p.client.HasRegistered? then Some(p.(client := ClientIdle, toServer := p.toServer + [p.client.line])) else None
    case ServerReads(line) =>
      if p.server.ServerIdle? then Some(p.(server := HasTaken(line), fromServer := p.fromServer + [line])) else None
    case ForwardsReply =>
      if p.server.HasTaken? then Some(p.(server := HasForwarded(p.server.line), toClient := p.toClient + [p.server.line]))
      else None
    case Records =>
      if p.server.HasForwarded? then
        Some(p.(server := ServerIdle, shared := Recorded(parse, p.shared, p.server.line)))
      else None
  }

  /** The last tools request with an id. */
  function Asked(parse: Parse, lines: seq<string>, id: string): Option<PendingCall> {
    if lines == [] then None
    else
      var n := |lines| - 1;
      var r := RequestOf(parse, lines[n]);
      if r.Some? && r.value.0 == id then Some(r.value.1) else Asked(parse, lines[..n], id)
  }

  predicate Answers(parse: Parse, lines: seq<string>, id: string) {
    exists i | 0 <= i < |lines| :: ResultOf(parse, lines[i]).Some? && ResultOf(parse, lines[i]).value.0 == id
  }

  /** What client and server may send. The client never reuses an id. The server answers an id once,
      and a request only after it got it. */
  predicate Allowed(parse: Parse, p: Proxy, a: Action) {
    match a
    case ClientReads(line) =>
      var r := RequestOf(parse, line);
      r.Some? ==> Asked(parse, p.fromClient, r.value.0).None? && !Answers(parse, p.fromServer, r.value.0)
    case ServerReads(line) =>
      var r := ResultOf(parse, line);
      r.Some? ==>
        && !Answers(parse, p.fromServer, r.value.0)
        && (Asked(parse, p.fromClient, r.value.0).Some? ==> Asked(parse, p.toServer, r.value.0).Some?)
    case _ => true
  }

  /** The recording two line sequences determine: for each result of a tools request, in the order the
      results came, that request with that result. */
  function Paired(parse: Parse, client: seq<string>, server: seq<string>): seq<Interaction> {
    if server == [] then []
    else
      var n := |server| - 1;
      var r := ResultOf(parse, server[n]);
      Paired(parse, client, server[..n])
      + if r.Some? && Asked(parse, client, r.value.0).Some?
        then [Recording(Asked(parse, client, r.value.0).value, r.value.1)] else []
  }

  /** The client lines registered so far, and the server lines recorded so far. */
  function RegisteredLines(p: Proxy): seq<string> {
    if p.client.HasRead? && |p.fromClient| > 0 then p.fromClient[..|p.fromClient| - 1] else p.fromClient
  }

  function RecordedLines(p: Proxy): seq<string> {
    if !p.server.ServerIdle? && |p.fromServer| > 0 then p.fromServer[..|p.fromServer| - 1] else p.fromServer
  }

  /** Lines are relayed unchanged and in order, up to the one in hand. */
  predicate Relayed(p: Proxy) {
    && p.fromClient == p.toServer + (if p.client.ClientIdle? then [] else [p.client.line])
    && p.fromServer == p.toClient + (if p.server.HasTaken? then [p.server.line] else [])
    && (p.server.HasForwarded? ==> |p.toClient| > 0 && p.toClient[|p.toClient| - 1] == p.server.line)
  }

  /** Waiting are exactly the registered requests whose result has not been recorded. */
  ghost predicate Waiting(parse: Parse, p: Proxy) {
    forall id :: PendingAt(p.shared.pending, id)
      == if Answers(parse, RecordedLines(p), id) then None else Asked(parse, RegisteredLines(p), id)
  }

  function PendingAt(m: map<string, PendingCall>, id: string): Option<PendingCall> {
    if id in m then Some(m[id]) else None
  }

  /** The result in hand, if any, answers a registered request or none at all. */
  predicate InHand(parse: Parse, p: Proxy) {
    !p.server.ServerIdle? && ResultOf(parse, p.server.line).Some? ==>
      var id := ResultOf(parse, p.server.line).value.0;
      && !Answers(parse, RecordedLines(p), id)
      && Asked(parse, p.fromClient, id) == Asked(parse, RegisteredLines(p), id)
  }

  /** A request read but not registered is new. */
  predicate Unregistered(parse: Parse, p: Proxy) {
    p.client.HasRead? && RequestOf(parse, p.client.line).Some? ==>
      var id := RequestOf(parse, p.client.line).value.0;
      !Answers(parse, p.fromServer, id) && Asked(parse, p.toServer, id).None?
  }

  ghost predicate Inv(parse: Parse, p: Proxy) {
    && Relayed(p) && Waiting(parse, p) && InHand(parse, p) && Unregistered(parse, p)
    && p.shared.rec == Paired(parse, p.fromClient, RecordedLines(p))
  }

  lemma AskedSnoc(parse: Parse, lines: seq<string>, line: string, id: string)
    ensures Asked(parse, lines + [line], id)
         == (var r := RequestOf(parse, line); if r.Some? && r.value.0 == id then Some(r.value.1) else Asked(parse, lines, id))
  {
    assert (lines + [line])[..|lines|] == lines;
  }

  lemma AnswersSnoc(parse: Parse, lines: seq<string>, line: string, id: string)
    ensures Answers(parse, lines + [line], id)
       <==> Answers(parse, lines, id) || (ResultOf(parse, line).Some? && ResultOf(parse, line).value.0 == id)
  {
    var all := lines + [line];
    if Answers(parse, lines, id) {
      var i :| 0 <= i < |lines| && ResultOf(parse, lines[i]).Some? && ResultOf(parse, lines[i]).value.0 == id;
      assert all[i] == lines[i];
    }
    assert all[|lines|] == line;
  }

  lemma PairedSnoc(parse: Parse, client: seq<string>, server: seq<string>, line: string)
    ensures Paired(parse, client, server + [line])
         == Paired(parse, client, server)
          + (var r := ResultOf(parse, line);
             if r.Some? && Asked(parse, client, r.value.0).Some?
             then [Recording(Asked(parse, client, r.value.0).value, r.value.1)] else [])
  {
    assert (server + [line])[..|server|] == server;
  }

  /** A request nobody has answered changes no pair. */
  lemma {:induction false} NewRequestPairsNothing(parse: Parse, client: seq<string>, line: string, server: seq<string>)
    requires RequestOf(parse, line).Some? ==> !Answers(parse, server, RequestOf(parse, line).value.0)
    ensures Paired(parse, client + [line], server) == Paired(parse, client, server)
  {
    if server != [] {
      var n := |server| - 1;
      assert server == server[..n] + [server[n]];
      if RequestOf(parse, line).Some? { AnswersSnoc(parse, server[..n], server[n], RequestOf(parse, line).value.0); }
      NewRequestPairsNothing(parse, client, line, server[..n]);
      if ResultOf(parse, server[n]).Some? { AskedSnoc(parse, client, line, ResultOf(parse, server[n]).value.0); }
    }
  }

  lemma ReadsRequest(parse: Parse, p: Proxy, line: string)
    requires Inv(parse, p) && Allowed(parse, p, ClientReads(line)) && p.client.ClientIdle?
    ensures Inv(parse, Act(parse, p, ClientReads(line)).value)
  {
    var q := Act(parse, p, ClientReads(line)).value;
    assert RegisteredLines(q) == RegisteredLines(p) == p.fromClient;
    if RequestOf(parse, line).Some? {
      LaterLines(parse, p, RequestOf(parse, line).value.0);
    }
    NewRequestPairsNothing(parse, p.fromClient, line, RecordedLines(p));
    if !p.server.ServerIdle? && ResultOf(parse, p.server.line).Some? {
      var id := ResultOf(parse, p.server.line).value.0;
      AskedSnoc(parse, p.fromClient, line, id);
      AnswersSnoc(parse, RecordedLines(p), p.server.line, id);
      InHandLine(p);
    }
  }

  lemma InHandLine(p: Proxy)
    requires Relayed(p) && !p.server.ServerIdle?
    ensures p.fromServer == RecordedLines(p) + [p.server.line]
  {
  }

  lemma LaterLines(parse: Parse, p: Proxy, id: string)
    requires Relayed(p)
    ensures Answers(parse, RecordedLines(p), id) ==> Answers(parse, p.fromServer, id)
  {
    if !p.server.ServerIdle? {
      InHandLine(p);
      AnswersSnoc(parse, RecordedLines(p), p.server.line, id);
    }
  }

  lemma RegistersRequest(parse: Parse, p: Proxy)
    requires Inv(parse, p) && p.client.HasRead?
    ensures Inv(parse, Act(parse, p, Registers).value)
  {
    var q := Act(parse, p, Registers).value;
    var line := p.client.line;
    assert p.fromClient == RegisteredLines(p) + [line] && RegisteredLines(q) == p.fromClient;
    forall id ensures PendingAt(q.shared.pending, id)
      == if Answers(parse, RecordedLines(q), id) then None else Asked(parse, RegisteredLines(q), id)
    {
      AskedSnoc(parse, RegisteredLines(p), line, id);
      LaterLines(parse, p, id);
      assert PendingAt(p.shared.pending, id)
        == if Answers(parse, RecordedLines(p), id) then None else Asked(parse, RegisteredLines(p), id);
    }
  }

  lemma ReadsReply(parse: Parse, p: Proxy, line: string)
    requires Inv(parse, p) && Allowed(parse, p, ServerReads(line)) && p.server.ServerIdle?
    ensures Inv(parse, Act(parse, p, ServerReads(line)).value)
  {
    var q := Act(parse, p, ServerReads(line)).value;
    assert RecordedLines(q) == RecordedLines(p) == p.fromServer;
    if p.client.HasRead? {
      assert p.fromClient == p.toServer + [p.client.line] && RegisteredLines(p) == p.toServer;
      var r, held := ResultOf(parse, line), RequestOf(parse, p.client.line);
      if r.Some? { AskedSnoc(parse, p.toServer, p.client.line, r.value.0); }
      if held.Some? { AnswersSnoc(parse, p.fromServer, line, held.value.0); }
    }
  }

  lemma Forwards(parse: Parse, p: Proxy, a: Action)
    requires Inv(parse, p) && (a.ForwardsRequest? || a.ForwardsReply?) && Act(parse, p, a).Some?
    ensures Inv(parse, Act(parse, p, a).value)
  {
    var q := Act(parse, p, a).value;
    assert RecordedLines(q) == RecordedLines(p) && RegisteredLines(q) == RegisteredLines(p);
    if p.client.HasRead? { assert RegisteredLines(p) == p.toServer; }
  }

  /** Recording: the result in hand is found under its request, or belongs to no tools request. */
  lemma RecordsReply(parse: Parse, p: Proxy)
    requires Inv(parse, p) && p.server.HasForwarded?
    ensures Inv(parse, Act(parse, p, Records).value)
    ensures var r := ResultOf(parse, p.server.line);
      r.Some? ==> PendingAt(p.shared.pending, r.value.0) == Asked(parse, p.fromClient, r.value.0)
  {
    var q := Act(parse, p, Records).value;
    var line := p.server.line;
    InHandLine(p);
    assert RecordedLines(q) == RecordedLines(p) + [line];
    PairedSnoc(parse, p.fromClient, RecordedLines(p), line);
    var r := ResultOf(parse, line);
    if r.Some? {
      assert PendingAt(p.shared.pending, r.value.0)
        == if Answers(parse, RecordedLines(p), r.value.0) then None else Asked(parse, RegisteredLines(p), r.value.0);
    }
    forall id ensures PendingAt(q.shared.pending, id)
      == if Answers(parse, RecordedLines(q), id) then None else Asked(parse, RegisteredLines(q), id)
    {
      AnswersSnoc(parse, RecordedLines(p), line, id);
      assert PendingAt(p.shared.pending, id)
        == if Answers(parse, RecordedLines(p), id) then None else Asked(parse, RegisteredLines(p), id);
    }
  }

  lemma ActKeeps(parse: Parse, p: Proxy, a: Action)
    requires Inv(parse, p) && Allowed(parse, p, a) && Act(parse, p, a).Some?
    ensures Inv(parse, Act(parse, p, a).value)
  {
    match a
    case ClientReads(line) => ReadsRequest(parse, p, line);
    case Registers => RegistersRequest(parse, p);
    case ServerReads(line) => ReadsReply(parse, p, line);
    case Records => RecordsReply(parse, p);
    case ForwardsRequest => Forwards(parse, p, a);
    case ForwardsReply => Forwards(parse, p, a);
  }

  // ---------------------------------------------------------------- whole sessions

  /** The interleaving can happen: every action is possible and allowed where it stands. */
  predicate Session(parse: Parse, p: Proxy, actions: seq<Action>)
    decreases |actions|
  {
    actions == [] || (Act(parse, p, actions[0]).Some? && Allowed(parse, p, actions[0])
                      && Session(parse, Act(parse, p, actions[0]).value, actions[1..]))
  }

  function End(parse: Parse, p: Proxy, actions: seq<Action>): Proxy
    requires Session(parse, p, actions)
    decreases |actions|
  {
    if actions == [] then p else End(parse, Act(parse, p, actions[0]).value, actions[1..])
  }

  lemma {:induction false} SessionKeeps(parse: Parse, p: Proxy, actions: seq<Action>)
    requires Inv(parse, p) && Session(parse, p, actions)
    ensures Inv(parse, End(parse, p, actions))
    decreases |actions|
  {
    if actions != [] {
      ActKeeps(parse, p, actions[0]);
      SessionKeeps(parse, Act(parse, p, actions[0]).value, actions[1..]);
    }
  }

  /** In every interleaving of the two pumps, once both rest: each direction has relayed its lines
      unchanged and in order, and the recording is the one the two line sequences determine, however
      the pumps were scheduled. No result met its request unregistered. */
  lemma PumpsCorrelate(parse: Parse, actions: seq<Action>)
    requires Session(parse, IDLE, actions)
    ensures var p := End(parse, IDLE, actions);
      p.client.ClientIdle? && p.server.ServerIdle? ==>
        p.toServer == p.fromClient && p.toClient == p.fromServer && p.shared.rec == Paired(parse, p.fromClient, p.fromServer)
  {
    assert Inv(parse, IDLE);
    SessionKeeps(parse, IDLE, actions);
    var p := End(parse, IDLE, actions);
    assert p.toServer + [] == p.toServer && p.toClient + [] == p.toClient;
  }

  /** At any moment of a session, a result about to be recorded finds its tools request waiting. */
  lemma NeverUnregistered(parse: Parse, actions: seq<Action>)
    requires Session(parse, IDLE, actions) && End(parse, IDLE, actions).server.HasForwarded?
    ensures var p := End(parse, IDLE, actions);
      var r := ResultOf(parse, p.server.line);
      r.Some? ==> PendingAt(p.shared.pending, r.value.0) == Asked(parse, p.fromClient, r.value.0)
  {
    assert Inv(parse, IDLE);
    SessionKeeps(parse, IDLE, actions);
    RecordsReply(parse, End(parse, IDLE, actions));
  }

  /** The results of tools requests among some server lines. */
  function ToolResults(parse: Parse, client: seq<string>, server: seq<string>): nat {
    if server == [] then 0
    else
      var n := |server| - 1;
      var r := ResultOf(parse, server[n]);
      ToolResults(parse, client, server[..n]) + if r.Some? && Asked(parse, client, r.value.0).Some? then 1 else 0
  }

  /** Each tools result is recorded once, in order, with the request of its own id. */
  lemma {:induction false} PairedExactly(parse: Parse, client: seq<string>, server: seq<string>, i: nat)
    requires i < |server| && ResultOf(parse, server[i]).Some? && Asked(parse, client, ResultOf(parse, server[i]).value.0).Some?
    ensures |Paired(parse, client, server)| == ToolResults(parse, client, server)
    ensures var k := ToolResults(parse, client, server[..i]);
      && k < |Paired(parse, client, server)|
      && var r := ResultOf(parse, server[i]).value;
         Paired(parse, client, server)[k] == Recording(Asked(parse, client, r.0).value, r.1)
  {
    var n := |server| - 1;
    PairedCount(parse, client, server[..n]);
    if i < n {
      assert server[..n][..i] == server[..i];
      PairedExactly(parse, client, server[..n], i);
    }
  }

  lemma {:induction false} PairedCount(parse: Parse, client: seq<string>, server: seq<string>)
    ensures |Paired(parse, client, server)| == ToolResults(parse, client, server)
  {
    if server != [] { PairedCount(parse, client, server[..|server| - 1]); }
  }
}
