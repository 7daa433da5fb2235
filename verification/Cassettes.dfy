/** The cassette file as a value: ordered request/response pairs and the persisted match settings. */
module Cassettes {
  import opened Options

  datatype Header = Header(name: string, values: seq<string>)

  datatype Kind = Http | Mcp | OtherKind(name: string)

  /** A match key of "" stands for one that was not persisted. */
  datatype Request = Request(verb: string, url: string, headers: seq<Header>, mcpMethod: string, mcpTool: string,
                             body: Option<string>, bodySum: string, matchKey: string)

  datatype Response = Response(status: int, headers: seq<Header>, streaming: bool, body: Option<string>,
                               error: string, timing: seq<int>)

  datatype Interaction = Interaction(kind: Kind, request: Request, response: Response)

  datatype MatchSpec = MatchSpec(volatilePaths: seq<string>, headerAllowlist: seq<string>)

  datatype File = File(notice: string, contract: Option<string>, spec: Option<MatchSpec>, interactions: seq<Interaction>)

  /** An empty body is stored as no body. */
  function NewBody(b: string): Option<string> {
    if b == "" then None else Some(b)
  }

  function Bytes(b: Option<string>): string {
    if b.Some? then b.value else ""
  }
}
