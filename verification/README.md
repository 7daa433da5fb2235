# Verified model of the cassette recorder

cassette records the HTTP and MCP traffic of an LLM client and replays it offline. Its promises rest on a
few intricate parts, and this project models those parts in Dafny and proves what they promise:

* **the codec** between a turn (`Transcript.dfy`: role, text, tool calls, finish reason) and the wire
  streams of five dialects. JSON texts are printed and read (`Json.dfy`), canonicalized (`Canon.dfy`),
  framed and scanned as server-sent events (`Sse.dfy`), cut out of streamed arrays (`Scanner.dfy`), and
  each dialect has its encoder and its fragment-reassembling decoder (`Anthropic*.dfy`, `OpenAI*.dfy`,
  `Responses*.dfy`, `Gemini*.dfy`, `Ollama*.dfy`). The modules named `*Fragments` say, without the decoders' tables, what the
  fragments of any stream add up to, `LineEnds.dfy` which line ends a stream may have, `Documents.dfy` what a JSON
  document does not depend on. `Dialects.dfy` states the codec laws for all of them; `Reframe.dfy`, `Port.dfy`,
  `PortReplay.dfy` and `Canonicalize.dfy` prove what rests on those laws: reframing, porting a recording and replaying it
  in another dialect, canonicalizing files;
* **the match key** (`Paths.dfy`, `Places.dfy`, `MatchKey.dfy`): volatile paths, body digests, what a key stands for, and
  what redacting a field does to it;
* **replay** (`Replay.dfy`, `Faults.dfy`, `FaultRuns.dfy`, `Branch.dfy`, `Reopen.dfy`, `Cassette.dfy`): cursors, exhaustion
  policies, fault overlays, recording, branch mode and verification, over whole runs;
* **stream timing** (`Frames.dfy`, `Timing.dfy`): frames counted while they arrive, paced when they replay;
* **the corpus** (`Alike.dfy`, `Compose.dfy`, `ProviderAxis.dfy`, `Merge.dfy`, `MergeReplay.dfy`, `Shrink.dfy`,
  `ShrinkMinimal.dfy`, `SplitReplay.dfy`): what replay can tell apart, split, stitch, merge, and the greedy cover;
* **self-contained algorithms**: the word diff (`WordDiff.dfy`), the pack format (`Pack.dfy`), the MCP proxy
  pumps (`McpProxy.dfy`, `McpReplay.dfy`), and the schema comparison against the schema check (`SchemaDiff.dfy`).

Loops and objects of the program are methods and classes here, each proved against a specification function;
the theorems are lemmas about those functions. The mutex is atomicity: a run is a sequence of critical
sections, and a theorem about all runs covers every interleaving. Checksums, regular expressions, gzip, the
clock, the byte editor and the number encoder for JSON come in as functions or arguments. What is asked of them
is stated, of a checksum only that it tells apart the texts a statement digests, and it is shown that it can be
had (`MatchKey.SomeOutside`, `PortReplay.SomeShaper`, `MatchKey.SomeEditor`, `MatchKey.EscapingReads`, `Merge.SomeSum`, `SchemaDiff.SomeEncoding`).

Where the code does not keep what its documentation says, the code is modelled as it is, and the condition
under which it does is proved in both directions:

* porting to Gemini or Ollama keeps the digest of a turn exactly when its tool arguments are valid JSON
  (`Port.PortPreservesIff`); the comment at `internal/analysis/port.go:17` promises it for all;
* `Canonicalize` accepts a stray closing bracket after the value (`Canon.CanonicalizeTakesStrayBracket`), and
  nothing else that is not one JSON value (`Canon.CanonicalizeStrictIff`);
* a redacted request is looked for under the volatile path, which is split at its dots, but redacted where the
  JSON library reads the path, which knows escapes, wildcards and queries. It is found by the live request exactly
  when no place written shows (`MatchKey.RedactedHttpMatches`): always for a dotted path in a body matched as JSON
  (`MatchKey.DottedHttpMatches`), not for an escaped dot (`MatchKey.EscapedDotMisses`), and in a body matched as
  bytes or as a multipart text only when the marker was spelled there already;
* a redacted MCP call is found by the call it was recorded from only when there was nothing to redact or later
  fields of the same key hide what was redacted, because MCP keys ignore volatile paths
  (`MatchKey.RedactedMcpMatches`, `MatchKey.RedactedMcpMisses`);
* an unbounded synthetic fault does not by itself keep a request from the recording: a modify fault listed
  before it lets attempts through (`Faults.ShadowedButPlayed`); `Faults.InjectsEveryAttemptIff` has the exact
  condition;
* a live response whose body breaks off leaves its interaction in the recording: record and replay agree exactly
  when no such interaction is followed by an answered request of its key (`Branch.ReplayAgreesIff`,
  `Branch.BrokenFirst`), for exactly the pairs of policies in `Branch.AgreesExactly`;
* the kept set of `Shrink` is called minimal but may contain a recording the others make superfluous
  (`Shrink.KeepsRedundant`); it is minimal exactly when each pick added something no later pick has
  (`ShrinkMinimal.MinimalIff`), and as small as any cover when at most two recordings are kept or each kept one
  has a signal of its own (`ShrinkMinimal.TwoAreFewest`, `ShrinkMinimal.OwnersAreFewest`; told from the corpus,
  `ShrinkMinimal.OwnersAreKept`); in general the greedy bound holds (`Shrink.GreedyBound`);
* a merge takes interactions with equal bodies for copies, whatever their status: no behaviour is lost exactly
  when copies agree on the rest of their responses (`Merge.NothingLostIff`, `Merge.StatusLost`); and a merged
  recording replays like its inputs exactly when, per key and exhaustion policy, `MergeReplay.MergeReplaysIff`
  says so: under the failing policy when nothing is a copy of anything before it, under the others in more cases;
* splitting is undone by stitching in every order exactly when the axis keeps each key together
  (`Compose.SplitStitchIff`, where the responses of each key differ), or, whatever the responses, when those of any
  two parts commute and all together are the recorded ones (`SplitReplay.SplitStitchFailIff`, the failing policy);
* a recording opens again exactly when every request in it was stored with a key or yields one as it is stored, so
  a single multipart body that cannot be parsed shuts it (`Reopen.RecordingOpensIff`);
* a comparison of flat schemas without a breaking change is sound exactly when no property starts to be tested for
  a type its values may lack, no choices leave out a value there was, and no undeclared name becomes required
  (`SchemaDiff.DiffSoundIff`); `SchemaDiff.UnionUnreported` and `SchemaDiff.ChoicesUnreported` are such changes.

## Model

| member | source | states |
|---|---|---|
| `Json.ReadPrinted` | internal/wireenc/wireenc.go:251-257 | any value printed before any text reads back as that value, and the text is left: strings with all escapes, numbers, nested objects and arrays |
| `Json.ReadPrintedString` | internal/wireenc/wireenc.go:251-257 | a printed string reads back character for character |
| `Canon.NormIsNormal` | internal/canon/canon.go:16-29 | the decoded map has its keys strictly increasing at every level |
| `Canon.NormKeepsLookup` | internal/canon/canon.go:66-79 | normalizing keeps exactly the value a decoder finds under each key, the last of repeated ones |
| `Canon.CanonicalizeSettles` | internal/canon/canon.go:23-29 | canonical output is valid JSON and its own canonical form |
| `Canon.CanonicalizeDecides` | internal/canon/canon.go:16-29 | two texts get one canonical form exactly when they denote the same document |
| `Canon.CanonicalizeStrictIff` | internal/canon/canon.go:66-79 | a text is accepted although it is not one JSON value exactly when a closing bracket or brace follows the value; every JSON value is accepted |
| `Canon.CanonicalizeTakesStrayBracket` | internal/canon/canon.go:66-79 | the concrete text `{}]` is accepted |
| `Canon.LessIff` | internal/canon/canon.go:16-29 | texts are ordered by the first character they differ in; a text that ends there comes first |
| `Documents.SpacingForgotten` | internal/canon/canon.go:16-29 | white space around and between the tokens of a document changes neither its value nor its canonical form |
| `Documents.ObjectsAlikeIff` | internal/canon/canon.go:16-29 | two objects have one canonical form exactly when a decoder finds the same under every key, in whatever order and however often the keys come |
| `Canon.CanonArgsSettles` | internal/wireenc/wireenc.go:357-362 | canonical arguments settle after one step and are valid JSON exactly when the input has a canonical form |
| `Canon.ArgsValueText` | internal/wireenc/wireenc.go:367-373 | embedded arguments print as their canonical text, or as the empty object when they are not valid JSON |
| `Scanner.SplitTopLevelObjects` | semequal/semequal.go:491-527 | the depth and string tracking loop computes the scanner specification on any bytes |
| `Scanner.ScannerExact` | semequal/semequal.go:491-527 | on any text of valid JSON objects with anything plain between them, exactly those objects come out, byte for byte |
| `Scanner.CutTolerant` | semequal/semequal.go:491-527 | cut anywhere, exactly the objects completed before the cut come out |
| `Scanner.ValueNeutral` | semequal/semequal.go:491-527 | the text of any JSON value leaves the scanner's depth where it was and never closes an object |
| `Sse.ParseSSE` | semequal/semequal.go:156-192 | the line loop computes the event specification on any bytes, type-only events and the flush at the end included |
| `Sse.TakeLine` | semequal/semequal.go:156-192 | one line dispatches or updates the pending event as specified |
| `Sse.RenderScans` | internal/wireenc/wireenc.go:259-264 | the line scanner recovers exactly the frames the printer wrote |
| `LineEnds.ReturnsIgnored` | semequal/semequal.go:156-192 | a stream whose lines end in CR LF has the events, and decoded as Anthropic, Chat Completions or Responses the turn, of the stream with plain line feeds |
| `LineEnds.UnfinishedFlushed` | semequal/semequal.go:156-192 | a stream cut off in its last line end, or before the blank line, has lost nothing |
| `LineEnds.FieldsTaken` | semequal/semequal.go:174-188 | one space after the colon is not part of a value and need not be there; comments and fields under other names are passed over |
| `Transcript.SortCallsSorts` | semequal/semequal.go:46-59 | sorting keeps the calls and orders them by name, then arguments |
| `Transcript.SortedUnique` | semequal/semequal.go:46-59 | the sorted list is determined by its contents, so the unstable sort has no choice |
| `Transcript.NormalizeSame` | semequal/semequal.go:46-59 | two turns normalize alike exactly when they differ only in call order and in a role left out for assistant |
| `Transcript.NormalizeSettles` | semequal/semequal.go:46-59 | normalizing settles after one step |
| `Transcript.EqualIffNormalizedSame` | semequal/semequal.go:61-101 | the digest input is injective on normalized turns: equality is sameness of the normalized turns |
| `Anthropic.DecodeAnthropicSSE` | semequal/semequal.go:200-284 | the block-table loop computes the decoder specification on any bytes, error events included |
| `Anthropic.EncodeAnthropicSSE` | internal/wireenc/wireenc.go:376-414 | the appending encoder computes the encoder specification |
| `AnthropicFragments.DecodesToSpelled` | semequal/semequal.go:200-284 | any stream decodes to the texts of its text blocks and the calls of its tool blocks, in opening order, each with its deltas since it was last opened joined however they are interleaved, and to the last stop reason; it failed exactly when it carries an error event |
| `AnthropicFraming.StreamDecodes` | semequal/semequal.go:200-284 | any chunking of the text, with any ids and calls, decodes to the turn it came from and no error |
| `AnthropicFraming.EncodeDecodes` | internal/wireenc/wireenc.go:376-414 | decode after encode is the normalized turn with canonical arguments, for every turn and envelope |
| `Reframe.SplitRunes` | internal/wireenc/wireenc.go:335-355 | the cutting loop computes the chunks of a set of cut points |
| `Reframe.ChunksSpell` | internal/wireenc/wireenc.go:335-355 | the chunks spell the text, none is empty, at most one more than the cut points |
| `Reframe.ReframeAnthropic` | internal/wireenc/wireenc.go:293-332 | the loops write the frames of the chunked text and of the shuffled calls as specified |
| `Reframe.ShuffledContents` | internal/wireenc/wireenc.go:293-332 | a shuffle of the calls keeps their contents |
| `Reframe.ReframedDecodes` | internal/wireenc/wireenc.go:266-332 | every reframing decodes to the turn of the canonical stream, whatever was drawn |
| `Reframe.SplittingDelta` | semequal/semequal.go:212-283 | in any stream, cutting a delta in two leaves the decoded turn unchanged |
| `Reframe.SwappingDeltas` | semequal/semequal.go:212-283 | in any stream, swapping neighbouring deltas of different blocks leaves the decoded turn unchanged |
| `OpenAI.DecodeOpenAISSE` | semequal/semequal.go:293-358 | the tool-table loop computes the decoder specification on any bytes |
| `OpenAI.EncodeOpenAISSE` | internal/wireenc/wireenc.go:417-459 | the appending encoder computes the encoder specification |
| `OpenAIFragments.DecodesToSpelled` | semequal/semequal.go:293-358 | any stream decodes to its contents joined, one call for each index mentioned, with its last name and all its argument fragments joined in order, and the last finish reason |
| `OpenAIFragments.IndicesOnce` | semequal/semequal.go:332-338 | every index mentioned gives one call and no other does |
| `OpenAIFragments.FragmentsJoin` | semequal/semequal.go:293-358 | a call streamed in any fragments, woven in any way into events that do not mention its index, adds exactly one call, whose arguments are the fragments joined |
| `OpenAIFragments.StreamedCallDecodes` | semequal/semequal.go:293-358 | the same on the wire: the opening frame and one frame a fragment, dealt in any way among any other frames and followed by anything |
| `OpenAIFragments.InterleavingForgotten` | semequal/semequal.go:293-358 | two streams with the same text and finish reason that tell the same of every call decode to the same turn, however the parts are interleaved, grouped and cut |
| `OpenAIFragments.SplittingChunk` | semequal/semequal.go:327-345 | in any stream, cutting a chunk in two, its content anywhere and its parts between two of them, leaves the decoded turn unchanged |
| `OpenAIFragments.SplittingPart` | semequal/semequal.go:332-342 | in any stream, cutting the arguments of a part in two leaves the decoded turn unchanged |
| `OpenAIFragments.SwappingChunks` | semequal/semequal.go:327-345 | in any stream, swapping neighbouring chunks that tell of different calls leaves the decoded turn unchanged |
| `OpenAIFragments.FirstChoiceCounts` | semequal/semequal.go:327-330 | of the choices of a chunk only the first counts, though all of them must decode |
| `OpenAIRoundTrip.EncodeDecodes` | internal/wireenc/wireenc.go:417-459 | decode after encode is the normalized turn with canonical arguments |
| `Responses.DecodeOpenAIResponsesSSE` | semequal/semequal.go:364-423 | the item-table loop computes the decoder specification on any bytes |
| `Responses.EncodeOpenAIResponsesSSE` | internal/wireenc/wireenc.go:462-498 | the appending encoder computes the encoder specification |
| `ResponsesFragments.DecodesToSpelled` | semequal/semequal.go:364-423 | any stream decodes to its text deltas joined, a call for each item opened, with the name and all fragments since it was last opened joined, and the last status |
| `ResponsesFragments.SplittingDelta` | semequal/semequal.go:393-408 | in any stream, cutting a text or argument delta in two leaves the decoded turn unchanged |
| `ResponsesFragments.SwappingDeltas` | semequal/semequal.go:393-408 | in any stream, swapping neighbouring deltas of different items leaves the decoded turn unchanged |
| `ResponsesRoundTrip.EncodeDecodes` | internal/wireenc/wireenc.go:462-498 | decode after encode is the normalized turn with canonical arguments |
| `Gemini.DecodeGeminiSSE` | semequal/semequal.go:434-486 | both framings are taken apart and gathered as specified on any bytes |
| `Gemini.EncodeGeminiSSE` | internal/wireenc/wireenc.go:532-553 | the encoder computes its specification |
| `Gemini.EncodeDecodes` | internal/wireenc/wireenc.go:526-553 | decode after encode is the normalized turn, arguments that are not valid JSON having become the empty object |
| `Gemini.FramingsAgree` | semequal/semequal.go:425-486 | a streamed array and the same objects framed as events decode alike |
| `Gemini.CutDecodes` | semequal/semequal.go:484-527 | a cut array decodes as the events of the objects completed so far |
| `GeminiFragments.DecodesToSpelled` | semequal/semequal.go:434-486 | any stream, in either framing, decodes to the texts of the parts that are neither calls nor thinking joined, all calls, and the last finish reason |
| `GeminiFragments.SplittingText` | semequal/semequal.go:434-486 | in any stream, cutting a piece of text in two leaves the decoded turn unchanged |
| `GeminiFragments.ThoughtsDropped` | semequal/semequal.go:466-478 | thinking streamed anywhere among the responses leaves the decoded turn unchanged |
| `GeminiFragments.FirstCandidateCounts` | semequal/semequal.go:461-464 | of the candidates of a response only the first counts, though all of them must decode |
| `Ollama.DecodeOllamaNDJSON` | semequal/semequal.go:538-575 | the line loop computes the decoder specification on any bytes |
| `Ollama.EncodeOllamaNDJSON` | internal/wireenc/wireenc.go:504-524 | the encoder computes its specification |
| `Ollama.EncodeDecodes` | internal/wireenc/wireenc.go:500-524 | decode after encode is the normalized turn, arguments that are not valid JSON having become the empty object |
| `OllamaFragments.DecodesToSpelled` | semequal/semequal.go:538-575 | any stream decodes to the contents of its lines joined, all their calls, and the last finish reason |
| `OllamaFragments.SplittingLine` | semequal/semequal.go:538-575 | in any stream, cutting a line in two, its content anywhere and its calls between two of them, leaves the decoded turn unchanged |
| `RawArgs.RawCallKeepsIff` | internal/wireenc/wireenc.go:364-373 | embedding keeps the arguments of a call exactly when they are valid JSON in canonical form |
| `Dialects.RequestPathRoutes` | internal/wireenc/wireenc.go:106-126 | the canonical request path of each dialect routes back to it |
| `Dialects.RoutedIff` | internal/wireenc/wireenc.go:106-116 | any path at all goes to the first dialect, in registry order, one of whose markers it has, and to Anthropic when it has none |
| `Dialects.DecodeEncode` | internal/wireenc/wireenc.go:202-213 | the codec law of every dialect, turn and envelope |
| `Dialects.CallsKeptIff` | internal/wireenc/wireenc.go:357-373 | the wire keeps the calls of a turn exactly when each of them survives |
| `Dialects.RoundTripIff` | internal/wireenc/wireenc.go:203-249 | decode after encode is the normalized turn exactly for assistant turns whose arguments the dialect carries |
| `Dialects.DecodedShape` | internal/wireenc/wireenc.go:211-213 | whatever the bytes, a decoded turn is a normalized assistant turn with settled arguments |
| `Dialects.SettledSurvive` | internal/wireenc/wireenc.go:357-373 | settled calls survive where arguments are text, and elsewhere exactly when they are valid JSON |
| `Dialects.StableIff` | internal/wireenc/wireenc.go:235-249 | a stream is stable exactly when its dialect carries arguments as text or all its decoded arguments are valid JSON |
| `Port.Port` | internal/analysis/port.go:25-74 | the porting loop computes the ported file and counts the turns it re-encoded |
| `Port.PortItem` | internal/analysis/port.go:28-72 | one interaction is copied through or re-encoded as specified |
| `Port.PortOneKeepsIff` | internal/analysis/port.go:13-24 | one interaction keeps its decoded turn exactly when the target can carry its arguments |
| `Port.PortPreservesIff` | internal/analysis/port.go:13-24 | the list of decoded turns is kept, copied ones included, exactly when every re-encoded turn can be carried |
| `Port.ChainPreserves` | internal/analysis/port.go:25-74 | with valid JSON arguments the turns are kept along any chain of dialects |
| `PortReplay.PortedFields` | internal/analysis/port.go:41-70 | what is stored of a re-encoded turn, field by field: the re-shaped JSON request under the key of its own method, path and body, and a streaming 200 with the encoded turn |
| `PortReplay.PortedIsFoundIff` | internal/analysis/port.go:47-53 | a live request has the key of a ported interaction exactly when it goes to the request path of the target, by the recorded method, with a body that means what the re-shaped one means |
| `PortReplay.PortedIsServed` | internal/analysis/port.go:13-19 | in any run, a request for a ported interaction, asked for as often before as its key stands before it, gets its ported response |
| `PortReplay.PortedSessionReplays` | internal/analysis/port.go:13-24 | a session recorded in other dialects, ported, and issued again in the shape of the target: under any policy the t-th request gets the t-th turn, streamed with status 200, and it is the recorded turn exactly when the target can carry its arguments |
| `PortReplay.SomeShaper` | internal/analysis/port.go:47-53 | what is asked of the key function of a port can be had |
| `Canonicalize.CanonicalizeFile` | internal/analysis/canonicalize.go:26-51 | the in-place rewrite is the canonical form of each interaction, and the count is that of the rewritten ones |
| `Canonicalize.CanonOneSettles` | internal/analysis/canonicalize.go:17-25 | idempotent; every decoded turn is kept; what is not stable is left alone |
| `Canonicalize.CanonicalIff` | internal/analysis/canonicalize.go:36-41 | which streams are rewritten, told from the decoded turn: no error, and arguments the dialect carries |
| `Canonicalize.SameTurnSameBytes` | internal/analysis/canonicalize.go:10-15 | two stable streams of a dialect end byte-identical exactly when they decode to the same turn |
| `Canonicalize.SecondPassIdle` | internal/analysis/canonicalize.go:17-25 | on every file the second pass rewrites nothing and all turns are kept |
| `Paths.DropTwice` | internal/canon/canon.go:93-126 | dropping a path twice is dropping it once, arrays included |
| `Paths.DropsCommute` | internal/canon/canon.go:93-126 | any two paths can be dropped in either order, overlapping ones included |
| `Paths.OnlyTheSetMatters` | internal/canon/canon.go:35-47 | what is left depends only on the set of dropped paths |
| `Paths.DropNorm` | internal/canon/canon.go:35-47 | dropping from the text's value and from the decoded map agree, repeated keys included |
| `Paths.AtoiReads` | internal/canon/canon.go:111-114 | an array index is read from exactly the texts that are digits after at most one sign, and the decimal text of a number reads as that number |
| `Places.DropForgets` | internal/canon/canon.go:93-126 | once a path is dropped, what stands at or under the place it leads to is forgotten, whichever of repeated keys the place is in |
| `Places.VolatileForgets` | internal/canon/canon.go:31-47 | what volatile paths leave of a body does not depend on what stands at or under any of them |
| `Places.WritesShowIff` | internal/canon/canon.go:31-47 | writing a text over any places leaves what takes part in matching as it was exactly when each place is dropped, hidden by a later field of its key, or held that text |
| `Places.ShownText` | internal/canon/canon.go:93-126 | the text of a place that is neither hidden nor dropped is found in what takes part in matching |
| `Places.OverwriteShowsIff` | internal/canon/canon.go:16-29 | overwriting any place leaves the decoded document as it was exactly when that value stood there already or a later field of the same key hides the place |
| `MatchKey.DigestDecides` | internal/match/match.go:167-191 | two bodies whose digested texts the checksum tells apart have one digest exactly when they mean the same: JSON documents without the volatile paths, multipart descriptions, or raw bytes |
| `MatchKey.KeyDecides` | internal/match/match.go:113-158 | two requests share a key exactly when method up to case, path and meaning of the body agree |
| `MatchKey.KeyBySet` | internal/match/match.go:113-158 | the key depends only on the set of volatile paths |
| `MatchKey.MatchedAsJsonIff` | internal/match/match.go:169-191 | a body is matched as a JSON document exactly when it decodes as one and its media type says json, or there is none and its first character past white space opens an object or an array |
| `MatchKey.HeaderFound` | internal/wirefmt/wirefmt.go:137-145 | the value of a header is the first value of the first header of its name, in any case, that has values |
| `MatchKey.McpKeyDecides` | internal/rekey/rekey.go:36-71 | MCP keys of a tool agree exactly when the arguments have one canonical form |
| `MatchKey.McpKeysDecide` | internal/rekey/rekey.go:36-71 | keys of tool calls agree exactly when tool and canonical arguments do, keys of listings when their parameters do, and a call never takes the key of a listing |
| `MatchKey.HttpIsNotMcp` | internal/rekey/rekey.go:17-71 | an HTTP request never takes the key of an MCP request |
| `MatchKey.Rekey` | internal/rekey/rekey.go:73-91 | in place, every key is derived anew; it fails exactly when some body cannot be digested |
| `MatchKey.RedactField` | cmd/cassette/maintain.go:224-261 | in place, bodies are redacted where the JSON library reads the path, the path is added to the volatile ones, and keys are derived under them |
| `MatchKey.RedactedHttpMatches` | cmd/cassette/maintain.go:234-261 | for any reading of paths, a redacted HTTP request is found by the live one exactly when there was nothing to redact or no place written shows: dropped, hidden, or holding the marker in a body matched as JSON; spelling the marker in any other |
| `MatchKey.DottedHttpMatches` | cmd/cassette/maintain.go:250-261 | for a dotted path, which both readings take alike: exactly when the body is matched as JSON, the path leads nowhere, or the marker is spelled there |
| `MatchKey.EscapedDotMisses` | cmd/cassette/maintain.go:238-261 | with an escaped dot in the path the redacted JSON body is not found any more, since the volatile path leads nowhere |
| `MatchKey.RedactedMcpMatches` | cmd/cassette/maintain.go:234-261 | a redacted MCP call is found by the one it was recorded from exactly when there was nothing to redact, or each place written held the marker or is hidden by a later field of its key |
| `MatchKey.DottedMcpMatches` | cmd/cassette/maintain.go:250-261 | for a dotted path: exactly when it leads nowhere, the marker stands there, or a later field hides the place |
| `MatchKey.RedactedMcpMisses` | internal/rekey/rekey.go:36-45 | a concrete redacted MCP call that the original call misses |
| `MatchKey.SomeOutside` | internal/match/match.go:167-191 | what is asked of checksum and multipart parser can be met for any two texts |
| `MatchKey.SomeEditor` | cmd/cassette/maintain.go:234-245 | what is asked of the JSON editor can be met for every reading of paths |
| `MatchKey.EscapingReads` | cmd/cassette/maintain.go:238-244 | some reading asked for takes the escaped dot as a dot in a key |
| `Replay.OrderedReplay` | transport.go:533-554 | over any run, the i-th request of a key gets the i-th recorded interaction of that key, then what the policy says, whatever else is requested |
| `Replay.ServedOnce` | transport.go:533-554 | under the failing policy no interaction is served twice |
| `Replay.ConsumedIff` | transport.go:514-522 | an interaction has been consumed exactly when its key was requested more often than the key stands before it |
| `Replay.AllConsumedIff` | cassette.go:496-514 | everything was consumed exactly when each key was requested at least as often as recorded |
| `Replay.GroupExact` | cassette.go:388-419 | the index of a key lists interactions of that key in recorded order |
| `Replay.GroupHas` | cassette.go:388-419 | every interaction is in the index of its key, at the place given by those before it |
| `Faults.FindFault` | faults.go:80-88 | the search returns the first matching fault |
| `Faults.ShadowsEveryAttempt` | faults.go:66-78 | the search finds an unbounded synthetic fault exactly when there is one |
| `Faults.ApplyModify` | faults.go:107-128 | truncation and dropped terminal event leave the specified frames of a copy |
| `Faults.ModifiedIsCorruption` | faults.go:107-128 | a modified body is a run of whole frames from the front of the stored one, and nothing else but timing changes |
| `Faults.FaultsErase` | transport.go:501-530 | with the injected failures deleted, any run under any faults is the run without faults, and ends in the same state |
| `Faults.PlayedIsRecorded` | transport.go:514-530 | whatever is played is the recorded response of that key up to whole frames cut from its end |
| `FaultRuns.FaultsByAttempt` | transport.go:501-530 | over any run: the n-th call of a key is failed by a fault exactly when that is the first listed for its method, path and n-th attempt and is synthetic; otherwise it is played what the first such fault leaves of the recording |
| `FaultRuns.FirstAttemptFails` | faults.go:27-29 | with one synthetic fault for the first attempt, exactly the first call of each key it selects fails |
| `FaultRuns.SelectsIff` | faults.go:56-64 | a fault is for the methods it names, in any case of letters, and the paths that end as it says; left empty, for any |
| `FaultRuns.ModifiedFrames` | faults.go:107-128 | exactly how many whole frames a modified body keeps, from the front, and that nothing else of the response but its timing changes |
| `Faults.InjectsEveryAttemptIff` | faults.go:66-88 | every attempt is failed on purpose exactly when, before the first unbounded synthetic fault, no fault modifies an attempt that is not already failed |
| `Faults.AllSyntheticSeals` | faults.go:66-88 | it suffices that all matching faults listed before the unbounded one are synthetic |
| `Faults.ShadowedButPlayed` | faults.go:66-78 | a concrete overlay that counts as shadowing while every attempt plays the recording |
| `Faults.SealedNeverServed` | transport.go:501-513 | behind a sealed overlay no run ever serves a recording of the key |
| `CassetteObject.Cassette.Index` | cassette.go:388-419 | the key table is the index of every key, persisted keys first; fails exactly on an underivable key |
| `CassetteObject.Cassette.NextIndexLocked` | transport.go:533-554 | interaction served and cursor written as specified, per policy |
| `CassetteObject.Cassette.Play` | transport.go:514-530 | the response next in turn, faults applied to a copy, the interaction marked consumed |
| `CassetteObject.Cassette.MatchResponse` | transport.go:483-531 | a lookup under faults answers and changes state as specified, and never touches the recording |
| `CassetteObject.Cassette.Record` | transport.go:174-243 | a live answer is appended before its body is read, so one that breaks off stays while the client gets an error; a failed dial appends nothing; the prefix is unchanged |
| `CassetteObject.Cassette.Branch` | transport.go:103-118 | a hit is served from the loaded prefix, a miss goes to the live side and is recorded; the prefix is unchanged |
| `CassetteObject.Cassette.SetStreamCapture` | transport.go:245-252 | filling in an appended response changes no other interaction |
| `CassetteObject.Cassette.VerifyError` | cassette.go:475-515 | recording and branching pass exactly when saving works; a replay exactly with no dial and every HTTP or MCP interaction consumed or shadowed |
| `CassetteObject.VerifiedIff` | cassette.go:475-515 | after any run, verification passes exactly when each such interaction was reached by enough requests of its key or is excused |
| `CassetteObject.VerifiedIffEnough` | cassette.go:475-515 | without faults: exactly when each key was requested at least as often as it was recorded |
| `Branch.BranchThenReplay` | transport.go:103-243 | opening the grown recording and issuing the answered requests again under the same policy answers each, with the interaction its response came from or went to exactly when no broken answer of its key was recorded before; the loaded prefix is unchanged |
| `Branch.ReplayAgreesIff` | transport.go:174-243 | record and replay agree on a run exactly when no missed call whose answer breaks off is followed by an answered one of its key, told from the calls |
| `Branch.AgreedResponses` | transport.go:103-118 | where they agree, each answered request gets its response from the saved recording, scrubbed |
| `Branch.BrokenFirst` | transport.go:229-235 | the concrete run: the answer that broke off is served instead of the one that was got |
| `Branch.OutcomeIs` | transport.go:108-118 | whether a call is served, recorded, broken or failed is told from its place among the calls of its key and from the live side |
| `Reopen.SavedRunReplays` | cassette.go:427-473 | the same on whole interactions: what is appended carries its key, scrubbing keeps the keys, so the index of the saved file serves every answered request, and agrees under the same exact condition |
| `Reopen.SavedBranchOpens` | cassette.go:388-419 | what a branch saves can be indexed when what it loaded could |
| `Reopen.RecordingOpensIff` | transport.go:193-200 | a saved recording can be indexed exactly when every stored request had a key or its stored form has one; a single one without shuts it |
| `Reopen.RecordingIsBranch` | transport.go:174-243 | where every request has a key, recording is a branch of the empty recording |
| `Reopen.ObjectBranches` | transport.go:103-118 | without faults one request to the cassette object is one step of the branch: state, recording and answer |
| `Branch.BranchReplays` | transport.go:533-554 | the same from any point of a run at which branch and replay are in step |
| `Branch.NeverAgain` | transport.go:535-554 | under a policy that never misses a recorded key, such a key is never recorded again |
| `Branch.AllAnswered` | transport.go:174-243 | with every dial answered the whole run can be issued again, and nothing is lost |
| `Branch.AgreesExactly` | transport.go:545-553 | replay under a second policy agrees with every run of the branch exactly when it is the same policy or the branch failed on over-consumption |
| `Branch.PrefixUntouched` | transport.go:514-522 | in every interleaving of lookups, appends and captures of concurrent clients the prefix stays as loaded and no index points past it |
| `Frames.SplitFrames` | transport.go:262-281 | the cutting loop computes the frames |
| `Frames.SplitExact` | transport.go:262-281 | the frames spell the body, none is empty, and there are as many as separators, plus one exactly when the body does not end with one |
| `Frames.CountGrows` | transport.go:405-417 | bytes that arrive later only add separators |
| `Timing.StreamCapture.Read` | transport.go:382-417 | each read tees its bytes and stamps newly completed frames; the end of the stream stores the capture |
| `Timing.StreamCapture.Finalize` | transport.go:425-450 | only the first finalization stores anything, and it stores body, deltas or the reason there is no body |
| `Timing.CumToDeltas` | transport.go:452-468 | the loop computes the clamped differences |
| `Timing.CapturesAll` | transport.go:382-417 | for any chunking, the capture is the stream, with one stamp for each separator |
| `Timing.StampedOnArrival` | transport.go:403-417 | each stamp is the time, since the start of the clock, of the read that completed its separator |
| `Timing.StampIsElapsed` | transport.go:403-417 | under a clock that never goes back, each stamp is the time from the first read that brought bytes to the read that completed its separator, in whole milliseconds of a nanosecond clock |
| `Timing.StampsInOrder` | transport.go:403-417 | under a clock that never goes back the stamps are ordered and not negative |
| `Timing.DeltasSumBack` | transport.go:452-468 | the deltas add up to the stamps exactly when those never decrease |
| `Timing.PacingAlwaysApplies` | transport.go:581-602 | whatever was captured, pacing applies whenever there is timing, and each frame comes out when it came in |
| `Timing.PacedReader.Read` | transport.go:294-312 | one read pauses, advances and hands out bytes as specified, cancellation included |
| `Timing.ReadsKeep` | transport.go:294-312 | for any read sizes nothing is lost, repeated or reordered, and every frame handed out was paused for once |
| `Timing.PacedEmitsBody` | transport.go:581-602 | a paced stream read to its end is exactly the body, each frame after its own delay, in milliseconds |
| `Timing.ReplayedOnTime` | transport.go:294-312 | captured under a clock that never goes back, then replayed to its end in reads of any sizes: the bytes are those that arrived, and each frame comes out as long after the start as it was completed after the first bytes, to the millisecond |
| `Timing.PacedReachesEnd` | transport.go:294-312 | an uncancelled stream reaches its end |
| `Compose.UnionStrings` | internal/analysis/merge.go:95-108 | the loop computes the union |
| `Compose.UnionExact` | internal/analysis/merge.go:95-108 | the union holds what either side holds, keeps the first in place, and adds nothing twice |
| `Compose.CarryMatch` | internal/analysis/compose.go:28-41 | the statements compute the carried settings |
| `Compose.CarryExact` | internal/analysis/compose.go:28-41 | carried settings hold exactly the volatile paths and headers of either side, and are there when either side has any |
| `Compose.Stitch` | internal/analysis/compose.go:10-26 | the loop computes the concatenation with settings and first contract carried |
| `Compose.StitchedExact` | internal/analysis/compose.go:10-26 | a stitched recording has the interactions of all files one after the other, the contract of the first file that has one, and the volatile paths and allowed headers of any of them |
| `Compose.Split` | internal/analysis/compose.go:43-80 | the groups are the names of the axis, each with its interactions in recorded order and the settings |
| `Alike.AlikeIff` | transport.go:533-554 | two lists of recorded answers can never be told apart exactly when they are equal, equal up to a repeated last entry, or rounds of one word, by policy |
| `Compose.EquivalentIff` | transport.go:533-554 | under every policy, two recordings answer every run alike exactly when the ordered responses of each key are such lists |
| `Compose.SplitStitchEquivalent` | internal/analysis/compose.go:10-80 | along an axis that keeps keys together, stitching the parts in any order replays like the original, under any policy |
| `Compose.SplitStitchIff` | internal/analysis/compose.go:10-80 | where the responses of each key differ: stitching in every order replays like the original exactly when the axis keeps keys together, under any policy |
| `SplitReplay.SplitStitchFailIff` | internal/analysis/compose.go:10-80 | whatever the responses, under the failing policy: stitching in every order replays like the original exactly when, for each key, the responses of any two parts commute and those of all parts in one order are the recorded ones |
| `Compose.PartsSettings` | internal/analysis/compose.go:10-80 | the stitched parts hold exactly the match settings of the original |
| `Compose.SeparatedKeyReorders` | internal/analysis/compose.go:68-75 | a concrete file of two interactions whose order an axis loses |
| `ProviderAxis.OneKeyOneProvider` | internal/match/match.go:131-138 | interactions of one key have one provider, because the path can be read off the key |
| `ProviderAxis.DerivedIsRouted` | internal/rekey/rekey.go:17-71 | derived keys have the shape from which the provider can be read |
| `ProviderAxis.ProviderSplitEquivalent` | internal/analysis/compose.go:43-80 | splitting by provider and stitching in any order replays like the original |
| `ProviderAxis.LiveSplitEquivalent` | internal/analysis/compose.go:28-80 | the same with each file opened under the match settings it carries: stored keys and live requests keyed under its own volatile paths get the same answers |
| `Merge.Merge` | internal/analysis/merge.go:25-68 | the loops compute the tally, with settings and contract carried like stitching |
| `Merge.KeepsFirsts` | internal/analysis/merge.go:18-24 | kept are the first of all copies, in order, and all others are counted as dropped |
| `Merge.FirstsCover` | internal/analysis/merge.go:18-24 | whatever was recorded has a copy, of the same key and bodies, in what is kept |
| `Merge.NothingLostIff` | internal/analysis/merge.go:18-24 | each recorded response is kept under its key and bodies exactly when copies agree on status, headers, error and timing |
| `Merge.StatusLost` | internal/analysis/merge.go:45-58 | a 500 with the body of a 200 is dropped and no conflict is reported |
| `Merge.FirstsDistinct` | internal/analysis/merge.go:18-24 | no two that are kept are copies |
| `Merge.ConflictsExact` | internal/analysis/merge.go:52-66 | conflicts are exactly the keys recorded with two different response bodies |
| `MergeReplay.MergeReplaysIff` | internal/analysis/merge.go:18-24 | the merge replays like its inputs exactly when: nothing is a copy of anything before it (failing); from the first drop of a key on all its responses are its last new one (repeating); its kept and recorded responses are rounds of one word (cycling) |
| `MergeReplay.GoRoundIff` | internal/analysis/merge.go:18-24 | for the cycling policy, where the kept responses of each key differ: exactly when each key was recorded as what is kept of it, repeated whole |
| `MergeReplay.OneRequestDiffers` | internal/analysis/merge.go:18-24 | they differ when every key stands for one request body |
| `Shrink.Shrink` | internal/analysis/coverage.go:108-157 | the greedy loop ends with every signal covered, never taking its early exit, and keeps the greedy picks in input order |
| `Shrink.FindBest` | internal/analysis/coverage.go:127-141 | a round finds the first unused recording of greatest gain |
| `Shrink.BestOfIsBest` | internal/analysis/coverage.go:127-141 | that recording gains at least as much as any, and more than any before it |
| `Shrink.GreedyCovers` | internal/analysis/coverage.go:104-107 | the picks cover every signal, each adding something new |
| `Shrink.FamilyGain` | internal/analysis/coverage.go:126-150 | what a family of recordings adds is at most their number times the greatest gain |
| `Shrink.GreedyBound` | internal/analysis/coverage.go:104-150 | against any cover of size k, after t rounds uncovered * k^t <= total * (k-1)^t |
| `Shrink.KeptAtMost` | internal/analysis/coverage.go:104-150 | so at most t recordings are kept once total * (k-1)^t < k^t |
| `Shrink.KeepsRedundant` | internal/analysis/coverage.go:104-107 | a concrete corpus whose kept set is not minimal |
| `ShrinkMinimal.MinimalIff` | internal/analysis/coverage.go:104-107 | no part of the kept recordings covers the corpus exactly when each pick added something that no later pick has |
| `ShrinkMinimal.LeftOutIff` | internal/analysis/coverage.go:126-150 | a kept recording can be left out exactly when the later picks have all it added |
| `ShrinkMinimal.TwoAreFewest` | internal/analysis/coverage.go:104-107 | up to two recordings are kept only when no fewer recordings of the corpus cover it |
| `ShrinkMinimal.OwnersAreFewest` | internal/analysis/coverage.go:104-107 | when each kept recording has a signal no other recording has, every cover contains them all |
| `ShrinkMinimal.OwnersAreKept` | internal/analysis/coverage.go:104-157 | told from the corpus: when every recording with a signal has one of its own, exactly those are kept, and they are the only smallest cover |
| `ShrinkMinimal.AllNeededIff` | internal/analysis/coverage.go:104-107 | no recording with a signal can be left out of the corpus exactly then |
| `WordDiff.Table` | cmd/cassette/diff.go:110-126 | the table filled backwards holds the recursive values everywhere |
| `WordDiff.WordDiff` | cmd/cassette/diff.go:127-147 | the walk writes the specified script |
| `WordDiff.SpellsBoth` | cmd/cassette/diff.go:107-148 | kept and removed words spell the old text, kept and added words the new one |
| `WordDiff.KeepsLongest` | cmd/cassette/diff.go:107-126 | the kept words are a common subsequence, and no common subsequence is longer |
| `WordDiff.ShortestScript` | cmd/cassette/diff.go:107-148 | no script between the two texts is shorter |
| `WordDiff.RemovalsFirst` | cmd/cassette/diff.go:127-147 | where words are replaced, removals come first: no addition stands right before a removal |
| `Pack.EncodeBundle` | cmd/cassette/pack.go:54-72 | the buffer loop writes the specified bytes |
| `Pack.DecodeBundle` | cmd/cassette/pack.go:74-111 | the bounds-checked loop reads as specified, with the same error first |
| `Pack.NumberFits` | cmd/cassette/pack.go:59-67 | a length survives its field exactly when it fits the width |
| `Pack.ByteAt` | cmd/cassette/pack.go:59-67 | the k-th byte of a length is its k-th digit to base 256, least first |
| `Pack.DecodesExactly` | cmd/cassette/pack.go:74-111 | arbitrary bytes decode to some files exactly when the files are within the limits and the bytes begin with their encoding |
| `Pack.BundleRoundTrip` | cmd/cassette/pack.go:54-111 | a bundle decodes back to itself exactly within the limits |
| `Pack.ReadTrailerIs` | cmd/cassette/pack.go:126-150 | for any 64-bit length field the signed arithmetic means: corrupt above what the file holds, else the payload in range |
| `Pack.ReadTrailerExact` | cmd/cassette/pack.go:126-150 | a payload is found exactly when the file ends with its trailer |
| `Pack.CorruptExactly` | cmd/cassette/pack.go:126-150 | corrupt is exactly the magic behind a length the file cannot hold |
| `Pack.PackedReadsBack` | cmd/cassette/pack.go:175-221 | a packed file yields its payload and the host it was made from |
| `Pack.Rebases` | cmd/cassette/pack.go:175-221 | packing a packed host gives what packing the original gives |
| `Pack.PackedServes` | cmd/cassette/pack.go:302-315 | a binary packed with a recording serves that recording byte for byte |
| `McpProxy.Recorder.Register` | cmd/cassette/mcpproxy.go:114-140 | the request section registers tools requests by id |
| `McpProxy.Recorder.Record` | cmd/cassette/mcpproxy.go:152-167 | the result section records a waiting request with its result, once |
| `McpProxy.ActKeeps` | cmd/cassette/mcpproxy.go:104-169 | every step of either pump keeps the invariant tying pending calls, recording and relayed lines |
| `McpProxy.PumpsCorrelate` | cmd/cassette/mcpproxy.go:88-173 | in every interleaving both directions relay unchanged and in order, and the recording is the one the two line sequences determine |
| `McpProxy.NeverUnregistered` | cmd/cassette/mcpproxy.go:114-116 | a result about to be recorded finds its tools request waiting |
| `McpProxy.PairedExactly` | cmd/cassette/mcpproxy.go:152-167 | each tools result is recorded once, in order, with the request of its id |
| `McpReplay.RecordedFields` | cmd/cassette/mcpproxy.go:114-167 | each recording holds, field by field, method, tool and arguments of the line that asked for tools under an id and the result of the line that answered it |
| `McpReplay.OthersUnrecorded` | cmd/cassette/mcpproxy.go:119-140 | a result under an id that asked for no tools is not recorded |
| `McpReplay.ProxyReplays` | cmd/cassette/mcpproxy.go:66-70 | the recording of any session, in any interleaving of the pumps, keyed and replayed: the i-th request for a call gets the i-th result relayed for calls of that method, tool and canonical arguments |
| `SchemaDiff.SchemaChanges` | internal/analysis/mcpdiff.go:74-131 | the loops report exactly the specified changes |
| `SchemaDiff.ReportedIff` | internal/analysis/mcpdiff.go:74-131 | exactly what is reported of a name, in terms of declared properties, named types and required names, and exactly what of it is called breaking |
| `SchemaDiff.RequiredAddedRefuses` | internal/analysis/mcpdiff.go:104-131 | a name reported as newly required refuses a call the old schema accepts |
| `SchemaDiff.FlatConforms` | internal/analysis/schemacheck.go:87-155 | for a flat property the check is the type test and the choices |
| `SchemaDiff.NothingBreakingKeeps` | internal/analysis/mcpdiff.go:72-131 | between flat schemas, union types and choices included, with nothing breaking reported and what the comparison does not look at kept, every old call without new properties is accepted |
| `SchemaDiff.DiffSoundIff` | internal/analysis/mcpdiff.go:72-131 | between flat schemas that some call satisfies, exactly then: untested properties stay so or have choices that pass, new choices list every value there was, and undeclared names were required before |
| `SchemaDiff.ChoicesUnreported` | internal/analysis/schemacheck.go:101-103 | a choice of values put on a property refuses old calls and is not reported |
| `SchemaDiff.UnionUnreported` | internal/analysis/mcpdiff.go:86-102 | a union of one type rewritten as that type refuses old calls and is not reported |

## Left out

- SchemaDiff.SchemaChanges: which changes are reported, not the order in which the report sorts them, nor the type a narrowed property lost.
- SchemaDiff.DiffSoundIff: object schemas whose properties have types and choices and no structure of their own, and no choices at the top; the comparison does not look into nested schemas, so nothing is claimed for them.
- SchemaDiff.Conforms: whether there is a problem, not the texts and paths of the problems.
- Merge.Merge: the set of conflicting keys, not its sorted order.
- Timing.StreamCapture.Finalize: the reason of an incomplete gzip capture without the decompressor's own words.
- Pack.WritePacked: the bytes of the file written; opening, syncing, renaming and permissions are not part of this model.
- WordDiff.WordDiff: works on the words; splitting at white space, colouring and cutting the result at 400 characters are left out.
- MatchKey.Key: the default path-based key; header allowlists, path and body transforms and custom key functions are left out.
- Branch.BranchThenReplay: requests that got no response are not issued again, since there is nothing to compare their replay with.
- Reframe.ReframeAnthropic: the cut points and the order are arguments; the random generator is left out, and so are the other dialects, whose reframing is their encoder with another envelope.
- Shrink.Shrink: takes the signal set of each recording as given; how signals are read off a recording is left out.
- Compose.Split: takes the axis as a function; an unknown axis name is an error before anything is split.
- Methods and header names are compared up to the case of ASCII letters.
- Text is a sequence of Unicode scalar values; UTF-8 decoding and the replacement of invalid bytes are left out.
- The 16 MiB line limit of the line scanners and the nesting limit of the JSON decoder are left out.
- Struct decoding that matches keys without regard to case, or merges repeated keys into one struct, is left out: fields are looked up by exact key, the last one winning.
- JSON integers read into struct fields are unbounded.
- Request bodies and model names of ported interactions come from a parameter: their translation is best effort in the code.
- Gzip bodies: the bodies here are already decompressed; multipart parsing, media types, checksums and the JSON byte editor are functions passed in.
- MergeReplay.MergeReplaysIff: replay by the logical key of the merge, the persisted one where there is one.
- MatchKey.RedactField: the JSON editor overwrites values that are there; paths its setter reads otherwise than its getter (a leading colon, a key repeated before the one that leads on), where it adds a field instead, are left out.
- A request whose body cannot be read, or whose context is already cancelled, fails before it reaches the replay state and is not modelled.
- Scrubbing is a function applied to each response; refusing to write a file with a surviving secret is left out.
- YAML storage, HTTP and MCP servers, dialing, subprocesses, signals and the command line are left out.
