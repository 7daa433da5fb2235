/** Match keys: what a request is recognised by. */
module MatchKey {
  import opened Lists
  import opened Options
  import opened Json
  import opened Canon
  import opened Paths
  import opened Places
  import opened Cassettes
  import opened Texts
  import Sse

  /** What the key derivation takes from outside: the checksum, the media type and the boundary of a
      Content-Type value, and the description of the parts of a multipart body. */
  datatype Outside = Outside(sum: string -> string, media: string -> string, boundary: string -> string,
                             parts: (string, string) -> Option<string>)

  /** Checksums are 64 hexadecimal digits. */
  ghost predicate Shaped(o: Outside) {
    forall a :: |o.sum(a)| == 64 && '\n' !in o.sum(a)
  }

  /** A JSON text has no boundary line, so it has no parts. */
  ghost predicate NoPartsInJson(o: Outside) {
    forall body, boundary :: ParseDoc(body).Some? ==> o.parts(body, boundary).None?
  }

  datatype Input = Input(verb: string, path: string, body: string, contentType: string)

  datatype BodyKind = JsonBody | MultipartBody | RawBody

  function KindText(k: BodyKind): string {
    match k
    case JsonBody => "json"
    case MultipartBody => "multipart"
    case RawBody => "raw"
  }

  predicate LooksJson(body: string) {
    var t := Sse.TrimSpace(body);
    t != "" && t[0] in {'{', '['}
  }

  function CanonicalizeDropping(body: string, paths: seq<string>): Option<string> {
    var v :- DecodeOne(body);
    Some(Print(DropAll(Norm(v), paths)))
  }

  predicate DeclaredJson(o: Outside, body: string, contentType: string) {
    Contains(o.media(contentType), "json") || (o.media(contentType) == "" && LooksJson(body))
  }

  /** What of a body is summed up: its canonical form without the volatile paths, the description of its
      parts, or its bytes. */
  function Digested(o: Outside, body: string, contentType: string, paths: seq<string>): Option<(BodyKind, string)> {
    if DeclaredJson(o, body, contentType) then
      var c := CanonicalizeDropping(body, paths);
      if c.Some? then Some((JsonBody, c.value)) else Some((RawBody, body))
    else if "multipart/" <= o.media(contentType) then
      if o.boundary(contentType) == "" then Some((MultipartBody, body))
      else
        var d :- o.parts(body, o.boundary(contentType));
        Some((MultipartBody, d))
    else Some((RawBody, body))
  }

  function BodyDigest(o: Outside, body: string, contentType: string, paths: seq<string>): Option<(BodyKind, string)> {
    var d :- Digested(o, body, contentType, paths);
    Some((d.0, o.sum(d.1)))
  }

  /** The text behind the digest of a request. */
  function Behind(o: Outside, x: Input, paths: seq<string>): string {
    var d := Digested(o, x.body, x.contentType, paths);
    if d.Some? then d.value.1 else ""
  }

  function Route(x: Input): string {
    Upper(x.verb) + "\n" + x.path
  }

  function Key(o: Outside, x: Input, paths: seq<string>): Option<string> {
    var d :- BodyDigest(o, x.body, x.contentType, paths);
    Some(Route(x) + "\n" + KindText(d.0) + ":" + d.1)
  }

  // ---------------------------------------------------------------- what a key stands for

  datatype Meaning = JsonMeaning(v: Value) | PartsMeaning(description: string) | RawMeaning(body: string)

  /** What of a body takes part in matching. */
  function MeaningOf(o: Outside, body: string, contentType: string, paths: seq<string>): Option<Meaning> {
    if DeclaredJson(o, body, contentType) then
      var v := DecodeOne(body);
      if v.Some? then Some(JsonMeaning(DropAll(Norm(v.value), paths))) else Some(RawMeaning(body))
    else if "multipart/" <= o.media(contentType) then
      if o.boundary(contentType) == "" then Some(PartsMeaning(body))
      else
        var d :- o.parts(body, o.boundary(contentType));
        Some(PartsMeaning(d))
    else Some(RawMeaning(body))
  }

  lemma DroppedPrintable(body: string, paths: seq<string>)
    requires DecodeOne(body).Some?
    ensures Printable(DropAll(Norm(DecodeOne(body).value), paths))
  {
    ReadIsPrintable(body);
    NormPrintable(DecodeOne(body).value);
    DropAllPrintable(Norm(DecodeOne(body).value), paths);
  }

  /** The requests of a statement have bodies the checksum tells apart. */
  predicate BodiesTold(o: Outside, a: Input, b: Input, paths: seq<string>) {
    Tells(o.sum, {Behind(o, a, paths), Behind(o, b, paths)})
  }

  /** Two bodies have one digest exactly when they mean the same. */
  lemma DigestDecides(o: Outside, a: Input, b: Input, paths: seq<string>)
    requires BodiesTold(o, a, b, paths)
    ensures BodyDigest(o, a.body, a.contentType, paths) == BodyDigest(o, b.body, b.contentType, paths)
      <==> MeaningOf(o, a.body, a.contentType, paths) == MeaningOf(o, b.body, b.contentType, paths)
  {
    if DecodeOne(a.body).Some? && DecodeOne(b.body).Some? {
      var v, w := DropAll(Norm(DecodeOne(a.body).value), paths), DropAll(Norm(DecodeOne(b.body).value), paths);
      DroppedPrintable(a.body, paths);
      DroppedPrintable(b.body, paths);
      if Print(v) == Print(w) { PrintInjective(v, w); }
    }
  }

  lemma {:induction false} UpperShape(s: string)
    requires '\n' !in s
    ensures '\n' !in Upper(s) && (s != "" ==> Upper(s) != "" && Upper(s)[0] != 'm')
  {
    if s != "" { UpperShape(s[1..]); }
  }

  lemma SameHeads(a: string, x: string, b: string, y: string)
    requires a + "\n" + x == b + "\n" + y && '\n' !in a && '\n' !in b
    ensures a == b && x == y
  {
    var s := a + "\n" + x;
    assert s[|a|] == '\n' && (b + "\n" + y)[|b|] == '\n';
    assert forall i | 0 <= i < |a| :: s[i] == a[i];
    assert forall i | 0 <= i < |b| :: (b + "\n" + y)[i] == b[i];
    assert |a| == |b|;
    SameEnds(a + "\n", x, b + "\n", y);
    SameEnds(a, "\n", b, "\n");
  }

  lemma SameKinds(r: string, j: BodyKind, r': string, k: BodyKind)
    requires r + "\n" + KindText(j) == r' + "\n" + KindText(k)
    ensures j == k && r == r'
  {
    var s, t := r + "\n" + KindText(j), r' + "\n" + KindText(k);
    assert s[|s| - 1] == KindText(j)[|KindText(j)| - 1] && t[|t| - 1] == KindText(k)[|KindText(k)| - 1];
    assert j == k;
    SameEnds(r + "\n", KindText(j), r' + "\n", KindText(k));
    SameEnds(r, "\n", r', "\n");
  }

  /** The key texts are equal exactly when route, kind of body and checksum are. */
  lemma KeyParts(r: string, d: (BodyKind, string), r': string, d': (BodyKind, string))
    requires |d.1| == |d'.1| == 64
    ensures r + "\n" + KindText(d.0) + ":" + d.1 == r' + "\n" + KindText(d'.0) + ":" + d'.1 <==> r == r' && d == d'
  {
    if r + "\n" + KindText(d.0) + ":" + d.1 == r' + "\n" + KindText(d'.0) + ":" + d'.1 {
      SameEnds(r + "\n" + KindText(d.0) + ":", d.1, r' + "\n" + KindText(d'.0) + ":", d'.1);
      SameEnds(r + "\n" + KindText(d.0), ":", r' + "\n" + KindText(d'.0), ":");
      SameKinds(r, d.0, r', d'.0);
    }
  }

  /** Two requests share a key exactly when method (up to case) and path agree and their bodies mean
      the same: for JSON, the same document once the volatile paths are dropped. */
  lemma KeyDecides(o: Outside, a: Input, b: Input, paths: seq<string>)
    requires Shaped(o) && BodiesTold(o, a, b, paths) && '\n' !in a.verb && '\n' !in b.verb
    requires Key(o, a, paths).Some? && Key(o, b, paths).Some?
    ensures Key(o, a, paths) == Key(o, b, paths)
      <==> && Upper(a.verb) == Upper(b.verb) && a.path == b.path
           && MeaningOf(o, a.body, a.contentType, paths) == MeaningOf(o, b.body, b.contentType, paths)
  {
    var d, d' := BodyDigest(o, a.body, a.contentType, paths).value, BodyDigest(o, b.body, b.contentType, paths).value;
    KeyParts(Route(a), d, Route(b), d');
    DigestDecides(o, a, b, paths);
    UpperShape(a.verb);
    UpperShape(b.verb);
    if Route(a) == Route(b) { SameHeads(Upper(a.verb), a.path, Upper(b.verb), b.path); }
  }

  /** The key depends only on which paths are volatile, not on their order or repetition. */
  lemma KeyBySet(o: Outside, x: Input, ps: seq<string>, qs: seq<string>)
    requires forall p :: p in ps <==> p in qs
    ensures Key(o, x, ps) == Key(o, x, qs)
  {
    var v := DecodeOne(x.body);
    if v.Some? { OnlyTheSetMatters(Norm(v.value), ps, qs); }
  }

  // ---------------------------------------------------------------- MCP keys

  function Digest(o: Outside, b: string): string {
    o.sum(CanonArgs(b))
  }

  function McpPath(verb: string, tool: string): string {
    if verb == "tools/call" then "mcp:tools/call:" + tool
    else if verb == "tools/list" then "mcp:tools/list"
    else "mcp:" + verb
  }

  /** No volatile path takes part. */
  function McpKey(o: Outside, verb: string, tool: string, body: string): string {
    McpPath(verb, tool) + ":" + Digest(o, body)
  }

  /** Keys of one tool are equal exactly when the arguments have one canonical form. */
  lemma McpKeyDecides(o: Outside, verb: string, tool: string, a: string, b: string)
    requires Shaped(o) && Tells(o.sum, {CanonArgs(a), CanonArgs(b)})
    ensures McpKey(o, verb, tool, a) == McpKey(o, verb, tool, b) <==> CanonArgs(a) == CanonArgs(b)
  {
    if McpKey(o, verb, tool, a) == McpKey(o, verb, tool, b) {
      SameEnds(McpPath(verb, tool) + ":", Digest(o, a), McpPath(verb, tool) + ":", Digest(o, b));
    }
  }

  lemma McpStart(verb: string, tool: string)
    ensures McpPath(verb, tool) != "" && McpPath(verb, tool)[0] == 'm'
  {
  }

  /** An HTTP request never takes the key of an MCP request. */
  lemma HttpIsNotMcp(o: Outside, x: Input, paths: seq<string>, verb: string, tool: string, body: string)
    requires '\n' !in x.verb && Key(o, x, paths).Some?
    ensures Key(o, x, paths).value != McpKey(o, verb, tool, body)
  {
    UpperShape(x.verb);
    McpStart(verb, tool);
    assert McpKey(o, verb, tool, body)[0] == 'm';
    var k := Key(o, x, paths).value;
    assert k[0] == (Upper(x.verb) + "\n")[0];
  }

  /** Keys of tool calls agree exactly when tool and arguments do, keys of listings when their parameters
      do, and a call never takes the key of a listing. */
  lemma McpKeysDecide(o: Outside, verb: string, tool: string, a: string, verb': string, tool': string, b: string)
    requires Shaped(o) && Tells(o.sum, {CanonArgs(a), CanonArgs(b)})
    requires verb in {"tools/call", "tools/list"} && verb' in {"tools/call", "tools/list"}
    ensures McpKey(o, verb, tool, a) == McpKey(o, verb', tool', b)
      <==> verb == verb' && (verb == "tools/call" ==> tool == tool') && CanonArgs(a) == CanonArgs(b)
  {
    if McpKey(o, verb, tool, a) == McpKey(o, verb', tool', b) {
      SameEnds(McpPath(verb, tool) + ":", Digest(o, a), McpPath(verb', tool') + ":", Digest(o, b));
      SameEnds(McpPath(verb, tool), ":", McpPath(verb', tool'), ":");
      McpPathsDiffer(verb, tool, verb', tool');
    }
  }

  lemma McpPathsDiffer(verb: string, tool: string, verb': string, tool': string)
    requires verb in {"tools/call", "tools/list"} && verb' in {"tools/call", "tools/list"}
    requires McpPath(verb, tool) == McpPath(verb', tool')
    ensures verb == verb' && (verb == "tools/call" ==> tool == tool')
  {
    var p, q := McpPath(verb, tool), McpPath(verb', tool');
    var call, list := "mcp:tools/call:", "mcp:tools/list";
    assert call[10] == 'c' && list[10] == 'l' && |call| == 15;
    assert verb == "tools/call" ==> p == call + tool;
    assert verb' == "tools/call" ==> q == call + tool';
    assert verb == "tools/call" ==> p[10] == 'c' && p[15..] == tool;
    assert verb' == "tools/call" ==> q[10] == 'c' && q[15..] == tool';
    assert verb == "tools/list" ==> p[10] == 'l';
    assert verb' == "tools/list" ==> q[10] == 'l';
  }

  /** A body is matched as a JSON document exactly when it decodes as one and its media type says so, or
      there is no media type and its first character that is not white space opens an object or an array. */
  lemma MatchedAsJsonIff(o: Outside, x: Input, paths: seq<string>)
    ensures (exists v :: MeaningOf(o, x.body, x.contentType, paths) == Some(JsonMeaning(v)))
      <==> && DecodeOne(x.body).Some?
           && (Inside(o.media(x.contentType), "json")
               || (o.media(x.contentType) == ""
                   && exists n: nat :: OpensAt(x.body, n)))
  {
    ContainsIff(o.media(x.contentType), "json");
    OpensIff(x.body);
    if DecodeOne(x.body).Some? && DeclaredJson(o, x.body, x.contentType) {
      var v := DropAll(Norm(DecodeOne(x.body).value), paths);
      assert MeaningOf(o, x.body, x.contentType, paths) == Some(JsonMeaning(v));
    }
  }

  /** An opening brace or bracket stands there, after white space only. */
  predicate OpensAt(s: string, n: nat) {
    n < |s| && s[n] in {'{', '['} && forall k | 0 <= k < n :: Sse.IsWhite(s[k])
  }

  lemma {:induction false} LeftTrimmed(s: string) returns (n: nat)
    ensures n <= |s| && Sse.TrimLeft(s) == s[n..] && (forall k | 0 <= k < n :: Sse.IsWhite(s[k]))
    ensures n < |s| ==> !Sse.IsWhite(s[n])
  {
    n := 0;
    if s != "" && Sse.IsWhite(s[0]) {
      var m := LeftTrimmed(s[1..]);
      n := m + 1;
    }
  }

  lemma OpensIff(s: string)
    ensures LooksJson(s) <==> exists n: nat :: OpensAt(s, n)
  {
    var n := LeftTrimmed(s);
    assert !Sse.IsWhite('{') && !Sse.IsWhite('[');
    if n < |s| {
      TrimRightStart(s[n..]);
      if LooksJson(s) { assert OpensAt(s, n); }
    } else {
      assert s[n..] == "";
    }
    if m: nat :| OpensAt(s, m) {
      assert m == n;
    }
  }

  // ---------------------------------------------------------------- keys of stored requests

  function HeaderValue(headers: seq<Header>, name: string): string {
    if headers == [] then ""
    else if Upper(headers[0].name) == Upper(name) && headers[0].values != [] then headers[0].values[0]
    else HeaderValue(headers[1..], name)
  }

  /** The value of the first header of a name, in any case, that has values; none when there is no such header. */
  lemma {:induction false} HeaderFound(headers: seq<Header>, name: string)
    ensures forall i | 0 <= i < |headers| && HasValue(headers[i], name) ::
      (forall j | 0 <= j < i :: !HasValue(headers[j], name)) ==> HeaderValue(headers, name) == headers[i].values[0]
    ensures (forall i | 0 <= i < |headers| :: !HasValue(headers[i], name)) ==> HeaderValue(headers, name) == ""
  {
    if headers != [] && !HasValue(headers[0], name) {
      HeaderFound(headers[1..], name);
      assert forall i | 0 < i < |headers| :: headers[i] == headers[1..][i - 1];
    }
  }

  predicate HasValue(h: Header, name: string) {
    Upper(h.name) == Upper(name) && |h.values| > 0
  }

  function InputOf(r: Request): Input {
    Input(r.verb, r.url, Bytes(r.body), HeaderValue(r.headers, "Content-Type"))
  }

  /** The key derived from a stored request: an error for an HTTP body that cannot be digested, and
      nothing to derive for other kinds. */
  function Derived(o: Outside, it: Interaction, paths: seq<string>): Option<string> {
    match it.kind
    case Http => Key(o, InputOf(it.request), paths)
    case Mcp => Some(McpKey(o, it.request.mcpMethod, it.request.mcpTool, Bytes(it.request.body)))
    case OtherKind(_) => Some(it.request.matchKey)
  }

  lemma DerivedBySet(o: Outside, it: Interaction, ps: seq<string>, qs: seq<string>)
    requires forall p :: p in ps <==> p in qs
    ensures Derived(o, it, ps) == Derived(o, it, qs)
  {
    KeyBySet(o, InputOf(it.request), ps, qs);
  }

  /** A way to derive the key of a stored request under a set of volatile paths. */
  type Deriver = (Interaction, seq<string>) -> Option<string>

  function Deriving(o: Outside): Deriver {
    (it, paths) => Derived(o, it, paths)
  }

  function Rekeyed(derive: Deriver, it: Interaction, paths: seq<string>): Option<Interaction> {
    var k :- derive(it, paths);
    Some(it.(request := it.request.(matchKey := k)))
  }

  /** Recomputes every key in place; stops at the first request whose body cannot be digested. */
  method Rekey(derive: Deriver, items: array<Interaction>, paths: seq<string>) returns (ok: bool)
    modifies items
    ensures ok <==> forall i | 0 <= i < items.Length :: Rekeyed(derive, old(items[i]), paths).Some?
    ensures ok ==> forall i | 0 <= i < items.Length :: Rekeyed(derive, old(items[i]), paths) == Some(items[i])
  {
    var i := 0;
    while i < items.Length
      invariant 0 <= i <= items.Length
      invariant forall k | 0 <= k < i :: Rekeyed(derive, old(items[k]), paths) == Some(items[k])
      invariant forall k | i <= k < items.Length :: items[k] == old(items[k])
    {
      var next := Rekeyed(derive, items[i], paths);
      if next.None? { return false; }
      items[i] := next.value;
      i := i + 1;
    }
    return true;
  }

  // ---------------------------------------------------------------- redacting a field

  const MARKER: string := "[REDACTED]"

  /** The JSON editing library: the places of a document a path stands for, how a text is rewritten with the
      marker at these places, and how the text of what stands at a place reads. */
  datatype Editor = Editor(places: (Value, string) -> seq<Place>, put: (string, string) -> string,
                           raw: (string, Place) -> string)

  /** The library's reading of paths: places that are there and apart from each other. A dotted path stands
      for what its segments lead to one after the other. */
  ghost predicate ReadsPaths(places: (Value, string) -> seq<Place>) {
    forall v, path :: PlacesFit(v, path, places(v, path))
  }

  predicate PlacesFit(v: Value, path: string, ps: seq<Place>) {
    && AllIn(v, ps) && AllApart(ps)
    && (Dotted(path) ==>
        var p := DottedPlace(v, Segments(path));
        if p.Some? then ps == [p.value] else Once(v) ==> ps == [])
  }

  /** The body is valid JSON and the path stands for something in it. */
  predicate Redacts(edit: Editor, body: string, path: string) {
    ParseDoc(body).Some? && edit.places(ParseDoc(body).value, path) != []
  }

  /** Rewriting overwrites what stands at the places, and changes the text exactly when one of them was not
      spelled as the marker. */
  ghost predicate Edits(edit: Editor) {
    && ReadsPaths(edit.places)
    && forall body, path | Redacts(edit, body, path) ::
      var v := ParseDoc(body).value;
      && ParseDoc(edit.put(body, path)) == Some(WriteAll(v, edit.places(v, path), Str(MARKER)))
      && (edit.put(body, path) == body <==> forall p <- edit.places(v, path) :: edit.raw(body, p) == Print(Str(MARKER)))
  }

  function RedactText(edit: Editor, body: string, path: string): string {
    if Redacts(edit, body, path) then edit.put(body, path) else body
  }

  function RedactBody(edit: Editor, body: Option<string>, path: string): Option<string> {
    if body.None? then None else Some(RedactText(edit, body.value, path))
  }

  function Redacted(edit: Editor, it: Interaction, path: string): Interaction {
    it.(request := it.request.(body := RedactBody(edit, it.request.body, path)),
        response := it.response.(body := RedactBody(edit, it.response.body, path)))
  }

  function WithPath(paths: seq<string>, path: string): seq<string> {
    if path in paths then paths else paths + [path]
  }

  method RedactBodies(edit: Editor, items: array<Interaction>, path: string)
    modifies items
    ensures forall i | 0 <= i < items.Length :: items[i] == Redacted(edit, old(items[i]), path)
  {
    var i := 0;
    while i < items.Length
      invariant 0 <= i <= items.Length
      invariant forall k | 0 <= k < i :: items[k] == Redacted(edit, old(items[k]), path)
      invariant forall k | i <= k < items.Length :: items[k] == old(items[k])
    {
      var it := items[i];
      it := it.(request := it.request.(body := RedactBody(edit, it.request.body, path)));
      it := it.(response := it.response.(body := RedactBody(edit, it.response.body, path)));
      items[i] := it;
      i := i + 1;
    }
  }

  /** Redacts in place, marks the path volatile, and recomputes the keys. */
  method RedactField(derive: Deriver, edit: Editor, items: array<Interaction>, paths: seq<string>, path: string)
    returns (ok: bool, volatile: seq<string>)
    modifies items
    ensures volatile == WithPath(paths, path)
    ensures ok <==> forall i | 0 <= i < items.Length :: Rekeyed(derive, Redacted(edit, old(items[i]), path), volatile).Some?
    ensures ok ==> forall i | 0 <= i < items.Length ::
      Rekeyed(derive, Redacted(edit, old(items[i]), path), volatile) == Some(items[i])
  {
    RedactBodies(edit, items, path);
    volatile := paths;
    if path !in volatile { volatile := volatile + [path]; }
    ok := Rekey(derive, items, volatile);
  }

  lemma {:induction false} TrimRightStart(s: string)
    requires s != "" && !Sse.IsWhite(s[0])
    ensures Sse.TrimRight(s) != "" && Sse.TrimRight(s)[0] == s[0]
  {
    if Sse.IsWhite(s[|s| - 1]) { TrimRightStart(s[..|s| - 1]); }
  }

  lemma {:induction false} TrimPastSkip(s: string)
    ensures Sse.TrimLeft(s) == Sse.TrimLeft(Skip(s))
  {
    if s != "" && IsSpace(s[0]) { TrimPastSkip(s[1..]); }
  }

  /** A text holding an object or an array is taken for JSON even without a content type. */
  lemma ContainerLooksJson(s: string)
    requires DecodeOne(s).Some? && (DecodeOne(s).value.Obj? || DecodeOne(s).value.Arr?)
    ensures LooksJson(s)
  {
    ContainerFront(s);
    TrimPastSkip(s);
    TrimRightStart(Skip(s));
  }

  lemma ParsedDecodes(s: string)
    requires ParseDoc(s).Some?
    ensures DecodeOne(s) == ParseDoc(s)
  {
  }

  /** Writing below the root leaves an object or an array. */
  lemma {:induction false} ContainerStays(v: Value, ps: seq<Place>, x: Value)
    requires AllIn(v, ps) && AllApart(ps) && (v.Obj? || v.Arr?)
    ensures WriteAll(v, ps, x).Obj? || WriteAll(v, ps, x).Arr?
    decreases |ps|
  {
    if ps != [] {
      assert ps[0] in ps;
      OneWritten(v, ps, x);
      ContainerStays(Write(v, ps[0], x), ps[1..], x);
    }
  }

  /** A redaction: the body before and after, as JSON values. */
  lemma RedactedValue(edit: Editor, body: string, path: string)
    requires Edits(edit) && Redacts(edit, body, path)
    ensures DecodeOne(body) == ParseDoc(body)
    ensures var v := ParseDoc(body).value;
      && AllIn(v, edit.places(v, path)) && AllApart(edit.places(v, path))
      && DecodeOne(RedactText(edit, body, path)) == Some(WriteAll(v, edit.places(v, path), Str(MARKER)))
    ensures ParseDoc(RedactText(edit, body, path)).Some?
    ensures LooksJson(body) && LooksJson(RedactText(edit, body, path))
  {
    var v := ParseDoc(body).value;
    var ps := edit.places(v, path);
    assert PlacesFit(v, path, ps) && ps[0] in ps;
    ContainerStays(v, ps, Str(MARKER));
    ParsedDecodes(body);
    ParsedDecodes(edit.put(body, path));
    ContainerLooksJson(body);
    ContainerLooksJson(edit.put(body, path));
  }

  /** Redacting at a place does not change what is matched: of a body matched as JSON, the place does not
      show; of any other, it was spelled as the marker. */
  predicate RedactUnseen(o: Outside, edit: Editor, live: Input, paths: seq<string>, p: Place)
    requires ParseDoc(live.body).Some?
  {
    if DeclaredJson(o, live.body, live.contentType) then Unseen(ParseDoc(live.body).value, p, MARKER, paths)
    else edit.raw(live.body, p) == Print(Str(MARKER))
  }

  /** What redacting does to the part of a body that takes part in matching. */
  lemma RedactedMeaning(o: Outside, edit: Editor, live: Input, path: string, paths: seq<string>)
    requires NoPartsInJson(o) && Edits(edit) && Redacts(edit, live.body, path)
    requires Key(o, live, paths).Some?
    ensures Key(o, live.(body := RedactText(edit, live.body, path)), paths).Some?
    ensures MeaningOf(o, RedactText(edit, live.body, path), live.contentType, paths)
         == MeaningOf(o, live.body, live.contentType, paths)
      <==> forall p <- edit.places(ParseDoc(live.body).value, path) :: RedactUnseen(o, edit, live, paths, p)
  {
    if DeclaredJson(o, live.body, live.contentType) {
      RedactedJson(o, edit, live, path, paths);
    } else {
      RedactedOther(o, edit, live, path, paths);
    }
  }

  lemma RedactedJson(o: Outside, edit: Editor, live: Input, path: string, paths: seq<string>)
    requires Edits(edit) && Redacts(edit, live.body, path) && DeclaredJson(o, live.body, live.contentType)
    ensures Key(o, live.(body := RedactText(edit, live.body, path)), paths).Some?
    ensures MeaningOf(o, RedactText(edit, live.body, path), live.contentType, paths)
         == MeaningOf(o, live.body, live.contentType, paths)
      <==> forall p <- edit.places(ParseDoc(live.body).value, path) :: Unseen(ParseDoc(live.body).value, p, MARKER, paths)
  {
    RedactedValue(edit, live.body, path);
    var v := ParseDoc(live.body).value;
    WritesShowIff(v, edit.places(v, path), MARKER, paths);
  }

  lemma RedactedOther(o: Outside, edit: Editor, live: Input, path: string, paths: seq<string>)
    requires NoPartsInJson(o) && Edits(edit) && Redacts(edit, live.body, path)
    requires Key(o, live, paths).Some? && !DeclaredJson(o, live.body, live.contentType)
    ensures Key(o, live.(body := RedactText(edit, live.body, path)), paths).Some?
    ensures MeaningOf(o, RedactText(edit, live.body, path), live.contentType, paths)
         == MeaningOf(o, live.body, live.contentType, paths)
      <==> forall p <- edit.places(ParseDoc(live.body).value, path) :: edit.raw(live.body, p) == Print(Str(MARKER))
  {
    RedactedValue(edit, live.body, path);
  }

  /** A redacted stored HTTP request is found by the live request that carries the original values exactly
      when there was nothing to redact (it is not valid JSON, or the path stands for nothing in it) or no
      place written shows: each is led to by a volatile path or lies under such a place, or is hidden by a
      later field of the same key, or held the marker. A body that is not matched as JSON must have spelled
      the marker at each of them. */
  lemma RedactedHttpMatches(o: Outside, edit: Editor, live: Input, path: string, paths: seq<string>)
    requires Shaped(o) && NoPartsInJson(o) && Edits(edit) && '\n' !in live.verb
    requires Key(o, live, paths).Some?
    requires BodiesTold(o, live.(body := RedactText(edit, live.body, path)), live, paths)
    ensures Key(o, live.(body := RedactText(edit, live.body, path)), paths) == Key(o, live, paths)
      <==> || !Redacts(edit, live.body, path)
           || forall p <- edit.places(ParseDoc(live.body).value, path) :: RedactUnseen(o, edit, live, paths, p)
  {
    var stored := live.(body := RedactText(edit, live.body, path));
    if Redacts(edit, live.body, path) {
      RedactedMeaning(o, edit, live, path, paths);
      KeyDecides(o, stored, live, paths);
    }
  }

  /** The places of a dotted path are those that marking it volatile covers. */
  lemma DottedPlaces(edit: Editor, body: string, path: string, paths: seq<string>)
    requires Edits(edit) && Dotted(path) && path in paths && ParseDoc(body).Some?
    requires var v := ParseDoc(body).value; DottedPlace(v, Segments(path)).Some? || Once(v)
    ensures var v := ParseDoc(body).value; var p := DottedPlace(v, Segments(path));
      && edit.places(v, path) == (if p.Some? then [p.value] else [])
      && (p.Some? ==> ReadAt(v, p.value).Some? && Dropped(v, p.value, paths))
  {
    var v := ParseDoc(body).value;
    assert PlacesFit(v, path, edit.places(v, path));
    if path == "" { assert !PlainSegment(Segments(path)[0]); }
    if DottedPlace(v, Segments(path)).Some? { DottedCovered(v, Segments(path)); }
  }

  /** For a dotted path marked volatile the two readings agree: the request is found exactly when its body is
      matched as JSON or there was nothing to redact. The body is valid JSON in which the path leads
      somewhere, or that repeats no key. */
  lemma DottedHttpMatches(o: Outside, edit: Editor, live: Input, path: string, paths: seq<string>)
    requires Shaped(o) && NoPartsInJson(o) && Edits(edit) && '\n' !in live.verb && Dotted(path) && path in paths
    requires ParseDoc(live.body).Some? && Key(o, live, paths).Some?
    requires var v := ParseDoc(live.body).value; DottedPlace(v, Segments(path)).Some? || Once(v)
    requires BodiesTold(o, live.(body := RedactText(edit, live.body, path)), live, paths)
    ensures var p := DottedPlace(ParseDoc(live.body).value, Segments(path));
      Key(o, live.(body := RedactText(edit, live.body, path)), paths) == Key(o, live, paths)
      <==> || DeclaredJson(o, live.body, live.contentType)
           || p.None?
           || edit.raw(live.body, p.value) == Print(Str(MARKER))
  {
    DottedPlaces(edit, live.body, path, paths);
    RedactedHttpMatches(o, edit, live, path, paths);
  }

  /** A redacted stored MCP call is found by the original call exactly when there was nothing to redact, or
      each place written held the marker or is hidden by a later field of the same key: volatile paths take
      no part in MCP keys. */
  lemma RedactedMcpMatches(o: Outside, edit: Editor, verb: string, tool: string, args: string, path: string)
    requires Shaped(o) && Edits(edit) && Tells(o.sum, {CanonArgs(RedactText(edit, args, path)), CanonArgs(args)})
    ensures McpKey(o, verb, tool, RedactText(edit, args, path)) == McpKey(o, verb, tool, args)
      <==> || !Redacts(edit, args, path)
           || var v := ParseDoc(args).value;
              forall p <- edit.places(v, path) :: Hidden(v, p) || ReadAt(v, p) == Some(Str(MARKER))
  {
    McpKeyDecides(o, verb, tool, RedactText(edit, args, path), args);
    if Redacts(edit, args, path) {
      RedactedValue(edit, args, path);
      CanonicalizeDecides(RedactText(edit, args, path), args);
      var v := ParseDoc(args).value;
      WritesShowIff(v, edit.places(v, path), MARKER, []);
    }
  }

  /** For a dotted path: when there was nothing to redact, the marker stood there, or a later field of the
      same key hides the place. */
  lemma DottedMcpMatches(o: Outside, edit: Editor, verb: string, tool: string, args: string, path: string)
    requires Shaped(o) && Edits(edit) && Tells(o.sum, {CanonArgs(RedactText(edit, args, path)), CanonArgs(args)})
    requires Dotted(path) && ParseDoc(args).Some?
    requires var v := ParseDoc(args).value; DottedPlace(v, Segments(path)).Some? || Once(v)
    ensures var v := ParseDoc(args).value; var p := DottedPlace(v, Segments(path));
      McpKey(o, verb, tool, RedactText(edit, args, path)) == McpKey(o, verb, tool, args)
      <==> p.None? || Hidden(v, p.value) || ReadAt(v, p.value) == Some(Str(MARKER))
  {
    DottedPlaces(edit, args, path, [path]);
    RedactedMcpMatches(o, edit, verb, tool, args, path);
  }

  /** Redacting the argument k of a call with {"k":"v"} leaves a recording the original call misses. */
  lemma RedactedMcpMisses(o: Outside, edit: Editor, tool: string, args: Value)
    requires Shaped(o) && Edits(edit) && args == Obj(Cons(Field("k", Str("v")), Nil))
    requires Tells(o.sum, {CanonArgs(RedactText(edit, Print(args), "k")), CanonArgs(Print(args))})
    ensures McpKey(o, "tools/call", tool, RedactText(edit, Print(args), "k")) != McpKey(o, "tools/call", tool, Print(args))
  {
    PrintedParses(args);
    OneLetter();
    OneFieldPlace("k", Str("v"));
    assert MARKER[0] != "v"[0];
    DottedMcpMatches(o, edit, "tools/call", tool, Print(args), "k");
  }

  lemma OneCharacter(s: string)
    requires |s| == 1 && !IsDigit(s[0])
    ensures Atoi(s) == None
  {
    assert s[..|s| - 1] == "";
  }

  lemma OneLetter()
    ensures Segments("k") == ["k"] && Dotted("k")
  {
    SegmentsOf('k', "");
    assert "k" == ['k'] + "" && [""][1..] == [] && ["k"] + [] == ["k"];
    OneCharacter("k");
    forall c <- "k" ensures c !in QUERY_SYNTAX { assert c == 'k'; }
    assert PlainSegment("k");
    forall seg <- Segments("k") ensures PlainSegment(seg) { assert seg == "k"; }
  }

  lemma OneFieldPlace(key: string, was: Value)
    ensures var v := Obj(Cons(Field(key, was), Nil));
      && DottedPlace(v, [key]) == Some([0]) && ReadAt(v, [0]) == Some(was) && !Hidden(v, [0])
      && Steps(v, [0]) == [Member(key)]
  {
    var v := Obj(Cons(Field(key, was), Nil));
    assert [key][1..] == [] && [0][1..] == [] && [0] + [] == [0];
    assert FirstIndex(v.fields, key) == Some(0) && Child(v, 0) == Some(was) && Lookup(Nil, key) == None;
    assert DottedPlace(was, []) == Some([]) && ReadAt(was, []) == Some(was) && Steps(was, []) == [];
  }

  const ESCAPED: string := "a\\.b"

  function DotDoc(): Value { Obj(Cons(Field("a.b", Str("x")), Nil)) }

  lemma SegmentsOf(c: char, rest: string)
    ensures Segments([c] + rest) == (var r := Segments(rest); if c == '.' then [""] + r else [[c] + r[0]] + r[1..])
  {
    assert ([c] + rest)[1..] == rest;
  }

  lemma EscapedSegments()
    ensures Segments(ESCAPED) == ["a\\", "b"]
  {
    SegmentsOf('b', "");
    assert "b" == ['b'] + "" && ['b'] + "" == "b" && [""][1..] == [] && ["b"] + [] == ["b"];
    SegmentsOf('.', "b");
    assert ".b" == ['.'] + "b" && [""] + ["b"] == ["", "b"] && ["", "b"][1..] == ["b"];
    SegmentsOf('\\', ".b");
    assert "\\.b" == ['\\'] + ".b" && ['\\'] + "" == "\\" && ["\\"] + ["b"] == ["\\", "b"] && ["\\", "b"][1..] == ["b"];
    SegmentsOf('a', "\\.b");
    assert ESCAPED == ['a'] + "\\.b" && ['a'] + "\\" == "a\\" && ["a\\"] + ["b"] == ["a\\", "b"];
  }

  lemma EscapedUncovered()
    ensures !Dropped(DotDoc(), [0], [ESCAPED])
  {
    EscapedSegments();
    OneFieldPlace("a.b", Str("x"));
    assert "a\\"[1] != "a.b"[1];
    assert !Covers(Segments(ESCAPED), [Member("a.b")]);
  }

  /** The library reads an escaped dot as a dot in a key, a volatile path does not: with the path a\.b
      redacted in the body {"a.b":"x"} and marked volatile, the stored request is not found any more. */
  lemma EscapedDotMisses(o: Outside, edit: Editor, live: Input)
    requires Shaped(o) && NoPartsInJson(o) && Edits(edit) && '\n' !in live.verb
    requires live.body == Print(DotDoc()) && DeclaredJson(o, live.body, live.contentType)
    requires edit.places(DotDoc(), ESCAPED) == [[0]]
    requires BodiesTold(o, live.(body := RedactText(edit, live.body, ESCAPED)), live, [ESCAPED])
    ensures Key(o, live.(body := RedactText(edit, live.body, ESCAPED)), [ESCAPED]) != Key(o, live, [ESCAPED])
  {
    var v := DotDoc();
    PrintedParses(v);
    ParsedDecodes(live.body);
    EscapedUncovered();
    OneFieldPlace("a.b", Str("x"));
    assert MARKER[0] != "x"[0];
    assert [0] in edit.places(v, ESCAPED) && !RedactUnseen(o, edit, live, [ESCAPED], [0]);
    RedactedHttpMatches(o, edit, live, ESCAPED, [ESCAPED]);
  }

  // ---------------------------------------------------------------- what is asked of the outside can be had

  /** Some checksum, with any media types and boundaries, meets all that is asked for two texts. */
  lemma SomeOutside(media: string -> string, boundary: string -> string, s: string, t: string) returns (o: Outside)
    ensures o.media == media && o.boundary == boundary && Shaped(o) && NoPartsInJson(o) && Tells(o.sum, {s, t})
  {
    var zeros, ones := seq(64, _ => '0'), seq(64, _ => '1');
    assert zeros[0] != ones[0];
    o := Outside(x => if x == s then zeros else ones, media, boundary, (_, _) => None);
  }

  function PrintedEdit(places: (Value, string) -> seq<Place>, body: string, path: string): string {
    if ParseDoc(body).None? then body
    else
      var v := ParseDoc(body).value;
      Print(WriteAll(v, places(v, path), Str(MARKER)))
  }

  function PrintedRaw(body: string, p: Place): string {
    if ParseDoc(body).None? then ""
    else
      var v := ParseDoc(body).value;
      if body == Print(v) && ReadAt(v, p) == Some(Str(MARKER)) then Print(Str(MARKER)) else ""
  }

  lemma {:induction false} WritesNothing(v: Value, ps: seq<Place>, x: Value)
    requires AllIn(v, ps) && AllApart(ps)
    ensures WriteAll(v, ps, x) == v <==> forall p <- ps :: ReadAt(v, p) == Some(x)
    decreases |ps|
  {
    if WriteAll(v, ps, x) == v {
      forall p <- ps ensures ReadAt(v, p) == Some(x) { WrittenAt(v, ps, x, p); }
    }
    if ps != [] && forall p <- ps :: ReadAt(v, p) == Some(x) {
      assert ps[0] in ps;
      WriteReads(v, ps[0], x);
      OneWritten(v, ps, x);
      forall p <- ps[1..] ensures ReadAt(v, p) == Some(x) { assert p in ps; }
      WritesNothing(v, ps[1..], x);
    }
  }

  /** For every reading of paths, an editor that prints the edited document meets what is asked of one. */
  lemma SomeEditor(places: (Value, string) -> seq<Place>) returns (edit: Editor)
    requires ReadsPaths(places)
    ensures Edits(edit) && edit.places == places
  {
    edit := Editor(places, (body, path) => PrintedEdit(places, body, path), PrintedRaw);
    forall body, path | Redacts(edit, body, path)
      ensures var v := ParseDoc(body).value;
        && ParseDoc(edit.put(body, path)) == Some(WriteAll(v, places(v, path), Str(MARKER)))
        && (edit.put(body, path) == body <==> forall p <- places(v, path) :: edit.raw(body, p) == Print(Str(MARKER)))
    {
      PrintedEdits(places, body, path);
    }
  }

  lemma PrintedEdits(places: (Value, string) -> seq<Place>, body: string, path: string)
    requires ReadsPaths(places) && ParseDoc(body).Some? && places(ParseDoc(body).value, path) != []
    ensures var v := ParseDoc(body).value;
      && ParseDoc(PrintedEdit(places, body, path)) == Some(WriteAll(v, places(v, path), Str(MARKER)))
      && (PrintedEdit(places, body, path) == body
          <==> forall p <- places(v, path) :: PrintedRaw(body, p) == Print(Str(MARKER)))
  {
    var v := ParseDoc(body).value;
    var ps := places(v, path);
    assert PlacesFit(v, path, ps) && ps[0] in ps;
    ReadIsPrintable(body);
    WriteAllPrintable(v, ps, Str(MARKER));
    PrintedParses(WriteAll(v, ps, Str(MARKER)));
    WritesNothing(v, ps, Str(MARKER));
    assert Print(Str(MARKER)) != "";
  }

  /** Dotted paths as they are asked to be read, and the escaped dot as a dot in a key. */
  function EscapingReader(v: Value, path: string): seq<Place> {
    if path == ESCAPED then (if v == DotDoc() then [[0]] else [])
    else if Dotted(path) && DottedPlace(v, Segments(path)).Some? then [DottedPlace(v, Segments(path)).value]
    else []
  }

  /** Such a reading exists, so the request of the escaped dot is missed by some editor. */
  lemma EscapingReads()
    ensures ReadsPaths(EscapingReader) && EscapingReader(DotDoc(), ESCAPED) == [[0]]
  {
    EscapedSegments();
    OneFieldPlace("a.b", Str("x"));
    var seg := Segments(ESCAPED)[0];
    assert seg[1] == '\\' && '\\' in seg && QUERY_SYNTAX[0] == '\\' && seg in Segments(ESCAPED);
    assert !PlainSegment(seg);
    forall v, path ensures PlacesFit(v, path, EscapingReader(v, path)) {
      if Dotted(path) && DottedPlace(v, Segments(path)).Some? { DottedCovered(v, Segments(path)); }
    }
  }
}
