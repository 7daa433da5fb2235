/** The top-level object scanner for a streamed JSON array (splitTopLevelJSONObjects). */
module Scanner {
  import opened Lists
  import opened Json

  /** Where the scanner stands: brace depth, inside a string, after a backslash. */
  datatype Mode = Mode(depth: nat, inStr: bool, esc: bool)

  function Step(m: Mode, c: char): Mode {
    if m.inStr then
      if m.esc then m.(esc := false)
      else if c == '\\' then m.(esc := true)
      else if c == '\"' then m.(inStr := false)
      else m
    else if c == '\"' then m.(inStr := true)
    else if c == '{' then m.(depth := m.depth + 1)
    else if c == '}' && m.depth > 0 then m.(depth := m.depth - 1)
    else m
  }

  /** Mode, the text of the object being collected, and the objects completed so far. */
  datatype State = State(mode: Mode, cur: string, out: seq<string>)

  function Feed(st: State, c: char): State {
    var m := Step(st.mode, c);
    if m.depth == 0 then
      State(m, "", if st.mode.depth > 0 then st.out + [st.cur + [c]] else st.out)
    else State(m, st.cur + [c], st.out)
  }

  function FeedAll(st: State, s: string): State
    decreases |s|
  {
    if s == "" then st else FeedAll(Feed(st, s[0]), s[1..])
  }

  const IDLE := Mode(0, false, false)

  function SplitObjects(s: string): seq<string> {
    FeedAll(State(IDLE, "", []), s).out
  }

  lemma {:induction false} FeedAllAppend(st: State, a: string, b: string)
    ensures FeedAll(st, a + b) == FeedAll(FeedAll(st, a), b)
    decreases |a|
  {
    if a == "" {
      assert a + b == b;
    } else {
      assert (a + b)[1..] == a[1..] + b;
      FeedAllAppend(Feed(st, a[0]), a[1..], b);
    }
  }

  /** The scanner as it runs: positions into the text, the object's start remembered. */
  method SplitTopLevelObjects(raw: string) returns (out: seq<string>)
    ensures out == SplitObjects(raw)
  {
    out := [];
    var depth, start := 0, -1;
    var inStr, esc := false, false;
    var i := 0;
    while i < |raw|
      invariant 0 <= i <= |raw|
      invariant depth >= 0 && (depth > 0 ==> 0 <= start < i)
      invariant FeedAll(State(IDLE, "", []), raw)
             == FeedAll(State(Mode(depth, inStr, esc), if depth > 0 then raw[start..i] else "", out), raw[i..])
    {
      var c := raw[i];
      ghost var before := State(Mode(depth, inStr, esc), if depth > 0 then raw[start..i] else "", out);
      assert depth > 0 ==> raw[start..i + 1] == before.cur + [c];
      if inStr {
        if esc {
          esc := false;
        } else if c == '\\' {
          esc := true;
        } else if c == '\"' {
          inStr := false;
        }
      } else if c == '\"' {
        inStr := true;
      } else if c == '{' {
        if depth == 0 {
          start := i;
        }
        depth := depth + 1;
      } else if c == '}' {
        if depth > 0 {
          depth := depth - 1;
          if depth == 0 && start >= 0 {
            out := out + [raw[start..i + 1]];
            start := -1;
          }
        }
      }
      assert raw[i..][0] == c && raw[i..][1..] == raw[i + 1..];
      assert before.mode.depth == 0 && depth > 0 ==> raw[start..i + 1] == [c] == before.cur + [c];
      assert Feed(before, c) == State(Mode(depth, inStr, esc), if depth > 0 then raw[start..i + 1] else "", out);
      i := i + 1;
    }
    assert raw[i..] == "";
  }

  // ---------------------------------------------------------------- texts that keep an object open

  function Run(m: Mode, s: string): Mode
    decreases |s|
  {
    if s == "" then m else Run(Step(m, s[0]), s[1..])
  }

  /** No step along s brings the depth to zero. */
  predicate StaysOpen(m: Mode, s: string)
    decreases |s|
  {
    m.depth > 0 && (s != "" ==> StaysOpen(Step(m, s[0]), s[1..]))
  }

  /** s leaves the scanner where it found it, at any depth, without closing the object. */
  predicate Neutral(d: nat, s: string) {
    StaysOpen(Mode(d, false, false), s) && Run(Mode(d, false, false), s) == Mode(d, false, false)
  }

  lemma {:induction false} RunAppend(m: Mode, a: string, b: string)
    ensures Run(m, a + b) == Run(Run(m, a), b)
    ensures StaysOpen(m, a + b) <==> StaysOpen(m, a) && StaysOpen(Run(m, a), b)
    decreases |a|
  {
    if a == "" {
      assert a + b == b;
    } else {
      assert (a + b)[1..] == a[1..] + b;
      RunAppend(Step(m, a[0]), a[1..], b);
    }
  }

  lemma NeutralAppend(d: nat, a: string, b: string)
    requires Neutral(d, a) && Neutral(d, b)
    ensures Neutral(d, a + b)
  {
    RunAppend(Mode(d, false, false), a, b);
  }

  /** A character outside strings and braces. */
  predicate Plain(c: char) { c != '\"' && c != '{' && c != '}' }

  predicate AllPlain(s: string) {
    forall i | 0 <= i < |s| :: Plain(s[i])
  }

  lemma {:induction false} PlainNeutral(d: nat, s: string)
    requires d > 0 && AllPlain(s)
    ensures Neutral(d, s)
  {
    if s != "" { PlainNeutral(d, s[1..]); }
  }

  lemma {:induction false} OpenCollects(st: State, s: string)
    requires StaysOpen(st.mode, s)
    ensures FeedAll(st, s) == State(Run(st.mode, s), st.cur + s, st.out)
    decreases |s|
  {
    if s != "" {
      OpenCollects(Feed(st, s[0]), s[1..]);
      assert st.cur + [s[0]] + s[1..] == st.cur + s;
    } else {
      assert st.cur + s == st.cur;
    }
  }

  // ---------------------------------------------------------------- every JSON text is balanced

  /** White space before the first token. */
  lemma {:induction false} SkipSplits(s: string, d: nat) returns (ws: string)
    requires d > 0
    ensures s == ws + Skip(s) && Neutral(d, ws)
  {
    if s != "" && IsSpace(s[0]) {
      var w := SkipSplits(s[1..], d);
      ws := [s[0]] + w;
      PlainNeutral(d, [s[0]]);
      NeutralAppend(d, [s[0]], w);
    } else {
      ws := "";
    }
  }

  /** A string literal is crossed without leaving the depth, braces inside it included. */
  lemma {:induction false} StringInside(s: string, d: nat) returns (used: string)
    requires d > 0 && ReadString(s).StrOk?
    ensures s == used + ReadString(s).rest
    ensures StaysOpen(Mode(d, true, false), used) && Run(Mode(d, true, false), used) == Mode(d, false, false)
    decreases |s|
  {
    var m := Mode(d, true, false);
    if s[0] == '\"' {
      used := [s[0]];
    } else {
      var n := if s[0] != '\\' then 1
               else if s[1] != 'u' then 2
               else
                 var u := ReadUnit(s).value;
                 var lo := ReadUnit(s[6..]);
                 if 0xD800 <= u < 0xDC00 && lo.Some? && 0xDC00 <= lo.value < 0xE000 then 12 else 6;
      var tail := StringInside(s[n..], d);
      used := s[..n] + tail;
      EscapeInside(s, n, m);
      RunAppend(m, s[..n], tail);
    }
  }

  /** One escape unit: a plain character, a two-character escape, or one or two code units. */
  lemma {:induction false} EscapeInside(s: string, n: nat, m: Mode)
    requires m.depth > 0 && m.inStr && !m.esc && n <= |s|
    requires
      || (n == 1 && s[0] != '\"' && s[0] != '\\')
      || (n == 2 && s[0] == '\\')
      || (n == 6 && ReadUnit(s).Some?)
      || (n == 12 && ReadUnit(s).Some? && ReadUnit(s[6..]).Some?)
    ensures StaysOpen(m, s[..n]) && Run(m, s[..n]) == m
  {
    if n == 12 {
      EscapeInside(s, 6, m);
      EscapeInside(s[6..], 6, m);
      assert s[..12] == s[..6] + s[6..][..6];
      RunAppend(m, s[..6], s[6..][..6]);
    } else if n == 6 {
      assert s[..6] == s[..2] + s[2..6];
      EscapeInside(s, 2, m);
      RunAppend(m, s[..2], s[2..6]);
      QuietInside(s[2..6], m);
    } else if n == 2 {
      assert s[..2][1..] == [s[1]] && [s[1]][1..] == "";
      assert Step(m, s[0]) == m.(esc := true) && Step(m.(esc := true), s[1]) == m;
      assert Run(m.(esc := true), [s[1]]) == m;
    } else {
      assert s[..1] == [s[0]];
    }
  }

  lemma {:induction false} QuietInside(s: string, m: Mode)
    requires m.depth > 0 && m.inStr && !m.esc
    requires forall i | 0 <= i < |s| :: s[i] != '\"' && s[i] != '\\'
    ensures StaysOpen(m, s) && Run(m, s) == m
  {
    if s != "" { QuietInside(s[1..], m); }
  }

  /** A literal, quotes included. */
  lemma QuotedNeutral(t: string, d: nat) returns (used: string)
    requires d > 0 && t != "" && t[0] == '\"' && ReadString(t[1..]).StrOk?
    ensures t == used + ReadString(t[1..]).rest && Neutral(d, used)
  {
    var inner := StringInside(t[1..], d);
    used := [t[0]] + inner;
    RunAppend(Mode(d, false, false), [t[0]], inner);
  }

  lemma {:induction false} NumberPlain(s: string, st: NumState)
    ensures AllPlain(RunNumber(s, st).text)
  {
    if s != "" && NumStep(st, s[0]).Some? { NumberPlain(s[1..], NumStep(st, s[0]).value); }
  }

  lemma WordFront(t: string) returns (word: string)
    requires t != "" && t[0] in "ntf" && ReadSolid(t).Ok?
    ensures word in {"null", "true", "false"} && t == word + ReadSolid(t).rest
  {
    word := if t[0] == 'n' then "null" else if t[0] == 't' then "true" else "false";
    assert word <= t;
  }

  lemma ScalarNeutral(t: string, d: nat) returns (used: string)
    requires d > 0 && ReadValue(t).Ok? && Skip(t) == t != "" && t[0] != '[' && t[0] != '{'
    ensures t == used + ReadValue(t).rest && Neutral(d, used)
  {
    if t[0] == '\"' {
      used := QuotedNeutral(t, d);
    } else if t[0] in "ntf" {
      used := WordFront(t);
      PlainNeutral(d, used);
    } else {
      used := RunNumber(t, Start).text;
      NumberPlain(t, Start);
      PlainNeutral(d, used);
    }
  }

  lemma ReadSkips(s: string)
    ensures Skip(Skip(s)) == Skip(s) && ReadValue(Skip(s)) == ReadValue(s)
  {
    SkipSolid(Skip(s));
  }

  /** The text of any JSON value, white space and all, is neutral. */
  lemma {:induction false} ValueNeutral(s: string, d: nat) returns (used: string)
    requires d > 0 && ReadValue(s).Ok?
    ensures s == used + ReadValue(s).rest && Neutral(d, used)
    decreases |s|, 0, 3
  {
    var ws := SkipSplits(s, d);
    var t := Skip(s);
    ReadSkips(s);
    var body: string;
    if t[0] == '[' {
      body := ArrayNeutral(t, d);
    } else if t[0] == '{' {
      body := ObjectNeutral(t, d);
    } else {
      body := ScalarNeutral(t, d);
    }
    used := ws + body;
    NeutralAppend(d, ws, body);
    Assoc(ws, body, ReadValue(s).rest);
  }

  lemma {:induction false} ArrayNeutral(t: string, d: nat) returns (used: string)
    requires d > 0 && t != "" && t[0] == '[' && ReadValue(t).Ok?
    ensures t == used + ReadValue(t).rest && Neutral(d, used)
    decreases |t|, 0, 0
  {
    var inner: string;
    var u := Skip(t[1..]);
    if u != "" && u[0] == ']' {
      var ws := SkipSplits(t[1..], d);
      inner := ws + "]";
      assert u == "]" + u[1..];
      Assoc(ws, "]", u[1..]);
      PlainNeutral(d, "]");
      NeutralAppend(d, ws, "]");
    } else {
      inner := ItemsNeutral(t[1..], d);
    }
    used := "[" + inner;
    assert t == "[" + t[1..];
    Assoc("[", inner, ReadValue(t).rest);
    PlainNeutral(d, "[");
    NeutralAppend(d, "[", inner);
  }

  lemma {:induction false} ItemsNeutral(s: string, d: nat) returns (used: string)
    requires d > 0 && ReadItems(s).Ok?
    ensures s == used + ReadItems(s).rest && Neutral(d, used)
    decreases |s|, 1
  {
    var x := ValueNeutral(s, d);
    var ws := SkipSplits(ReadValue(s).rest, d);
    var t := Skip(ReadValue(s).rest);
    var more := "";
    if t[0] == ',' { more := ItemsNeutral(t[1..], d); }
    used := x + (ws + ([t[0]] + more));
    ItemText(t, more, ReadItems(s).rest);
    AssocFour(x, ws, [t[0]] + more, ReadItems(s).rest);
    SepNeutral(t[0], more, d);
    NeutralAppend(d, ws, [t[0]] + more);
    NeutralAppend(d, x, ws + ([t[0]] + more));
  }

  lemma ItemText(t: string, more: string, rest: string)
    requires t != "" && t[1..] == more + rest
    ensures t == ([t[0]] + more) + rest
  {
  }

  lemma SepNeutral(c: char, more: string, d: nat)
    requires d > 0 && c in {',', ']'} && (more == "" || Neutral(d, more))
    ensures Neutral(d, [c] + more)
  {
    PlainNeutral(d, [c]);
    PlainNeutral(d, "");
    NeutralAppend(d, [c], more);
  }

  /** An object splits into its opening brace, a text neutral one level down, its closing brace. */
  lemma {:induction false} ObjectSplits(t: string, d: nat) returns (inner: string)
    requires t != "" && t[0] == '{' && ReadValue(t).Ok?
    ensures t == "{" + inner + "}" + ReadValue(t).rest && Neutral(d + 1, inner)
    decreases |t|, 0, 0
  {
    var u := Skip(t[1..]);
    if u != "" && u[0] == '}' {
      inner := SkipSplits(t[1..], d + 1);
    } else {
      inner := FieldsNeutral(t[1..], d + 1);
    }
  }

  lemma {:induction false} ObjectNeutral(t: string, d: nat) returns (used: string)
    requires d > 0 && t != "" && t[0] == '{' && ReadValue(t).Ok?
    ensures t == used + ReadValue(t).rest && Neutral(d, used)
    decreases |t|, 0, 1
  {
    var inner := ObjectSplits(t, d);
    used := "{" + inner + "}";
    var m := Mode(d, false, false);
    RunAppend(m, "{", inner);
    RunAppend(m, "{" + inner, "}");
    assert "{"[1..] == "" && "}"[1..] == "";
  }

  lemma ColonNeutral(s: string, d: nat) returns (used: string)
    requires d > 0 && Skip(s) != "" && Skip(s)[0] == ':'
    ensures s == used + Skip(s)[1..] && Neutral(d, used)
  {
    var ws := SkipSplits(s, d);
    PlainNeutral(d, ":");
    NeutralAppend(d, ws, ":");
    used := ws + ":";
    assert Skip(s) == ":" + Skip(s)[1..];
    Assoc(ws, ":", Skip(s)[1..]);
  }

  /** A key, its colon, and the white space around them. */
  lemma KeyNeutral(s: string, d: nat) returns (used: string)
    requires d > 0 && ReadFields(s).Ok?
    ensures s == used + Skip(ReadString(Skip(s)[1..]).rest)[1..] && Neutral(d, used)
  {
    var ws := SkipSplits(s, d);
    var key := QuotedNeutral(Skip(s), d);
    var after := ReadString(Skip(s)[1..]).rest;
    var colon := ColonNeutral(after, d);
    NeutralAppend(d, key, colon);
    NeutralAppend(d, ws, key + colon);
    used := ws + (key + colon);
    Assoc(key, colon, Skip(after)[1..]);
    Assoc(ws, key + colon, Skip(after)[1..]);
  }

  lemma FieldText(d: nat, key: string, x: string, ws: string, more: string) returns (used: string)
    requires d > 0 && Neutral(d, key) && Neutral(d, x) && Neutral(d, ws) && Neutral(d, more)
    ensures used == key + (x + (ws + more)) && Neutral(d, used)
  {
    NeutralAppend(d, ws, more);
    NeutralAppend(d, x, ws + more);
    NeutralAppend(d, key, x + (ws + more));
    used := key + (x + (ws + more));
  }

  lemma FieldSplits(key: string, x: string, ws: string, more: string, rest: string)
    ensures key + (x + (ws + (more + rest))) == key + (x + (ws + more)) + rest
  {
    Assoc(ws, more, rest);
    Assoc(x, ws + more, rest);
    Assoc(key, x + (ws + more), rest);
  }

  lemma {:induction false} FieldsNeutral(s: string, d: nat) returns (used: string)
    requires d > 0 && ReadFields(s).Ok?
    ensures s == used + "}" + ReadFields(s).rest && Neutral(d, used)
    decreases |s|, 1
  {
    var key := KeyNeutral(s, d);
    var u := Skip(ReadString(Skip(s)[1..]).rest);
    var x := ValueNeutral(u[1..], d);
    var afterVal := ReadValue(u[1..]).rest;
    var ws := SkipSplits(afterVal, d);
    var w := Skip(afterVal);
    var more := "";
    PlainNeutral(d, "");
    if w[0] == ',' {
      var m := FieldsNeutral(w[1..], d);
      more := "," + m;
      PlainNeutral(d, ",");
      NeutralAppend(d, ",", m);
    }
    assert w == more + "}" + ReadFields(s).rest;
    used := FieldText(d, key, x, ws, more);
    Assoc(more, "}", ReadFields(s).rest);
    FieldSplits(key, x, ws, more, "}" + ReadFields(s).rest);
    Assoc(used, "}", ReadFields(s).rest);
  }

  // ---------------------------------------------------------------- a streamed array, cut anywhere

  /** An object of the stream with the array punctuation and white space before it. */
  datatype Piece = Piece(sep: string, obj: string)

  /** A text from '{' to '}' that the JSON reader reads completely. */
  predicate ObjectText(o: string) {
    o != "" && o[0] == '{' && ReadValue(o).Ok? && ReadValue(o).rest == ""
  }

  predicate Streamed(ps: seq<Piece>, tail: string) {
    && (forall p <- ps :: AllPlain(p.sep) && ObjectText(p.obj))
    && AllPlain(tail)
  }

  function Text(ps: seq<Piece>, tail: string): string {
    if ps == [] then tail else ps[0].sep + (ps[0].obj + Text(ps[1..], tail))
  }

  /** The objects whose closing brace lies within the first n characters. */
  function Completed(ps: seq<Piece>, n: nat): seq<string> {
    if ps == [] || n < |ps[0].sep| + |ps[0].obj| then []
    else [ps[0].obj] + Completed(ps[1..], n - |ps[0].sep| - |ps[0].obj|)
  }

  lemma {:induction false} IdlePlain(st: State, s: string)
    requires st.mode == IDLE && st.cur == "" && AllPlain(s)
    ensures FeedAll(st, s) == st
  {
    if s != "" { IdlePlain(Feed(st, s[0]), s[1..]); }
  }

  /** A whole object is emitted; a proper part of one is not. */
  lemma ObjectFed(st: State, o: string, n: nat)
    requires st.mode == IDLE && st.cur == "" && ObjectText(o) && n <= |o|
    ensures n == |o| ==> FeedAll(st, o) == State(IDLE, "", st.out + [o])
    ensures n < |o| ==> FeedAll(st, o[..n]).out == st.out
  {
    var inner := ObjectSplits(o, 0);
    assert o == "{" + inner + "}";
    var open := Feed(st, '{');
    assert open == State(Mode(1, false, false), "{", st.out);
    if n == |o| {
      assert o[1..] == inner + "}";
      FeedAllAppend(open, inner, "}");
      OpenCollects(open, inner);
      assert "}"[1..] == "";
    } else if n > 0 {
      var part := inner[..n - 1];
      assert o[..n] == "{" + part && o[..n][1..] == part;
      assert inner == part + inner[n - 1..];
      RunAppend(open.mode, part, inner[n - 1..]);
      OpenCollects(open, part);
    } else {
      assert o[..n] == "";
    }
  }

  lemma {:induction false} CutFed(st: State, ps: seq<Piece>, tail: string, n: nat)
    requires st.mode == IDLE && st.cur == "" && Streamed(ps, tail) && n <= |Text(ps, tail)|
    ensures FeedAll(st, Text(ps, tail)[..n]).out == st.out + Completed(ps, n)
    decreases |ps|
  {
    var text := Text(ps, tail);
    if ps == [] {
      IdlePlain(st, text[..n]);
    } else {
      var p, rest := ps[0], Text(ps[1..], tail);
      if n <= |p.sep| {
        assert text[..n] == p.sep[..n];
        IdlePlain(st, p.sep[..n]);
        ObjectTextLong(p.obj);
      } else {
        IdlePlain(st, p.sep);
        var m := n - |p.sep|;
        if m < |p.obj| {
          assert text[..n] == p.sep + p.obj[..m];
          FeedAllAppend(st, p.sep, p.obj[..m]);
          ObjectFed(st, p.obj, m);
        } else {
          var r := m - |p.obj|;
          assert text[..n] == p.sep + (p.obj + rest[..r]);
          FeedAllAppend(st, p.sep, p.obj + rest[..r]);
          FeedAllAppend(st, p.obj, rest[..r]);
          ObjectFed(st, p.obj, |p.obj|);
          CutFed(State(IDLE, "", st.out + [p.obj]), ps[1..], tail, r);
        }
      }
    }
  }

  lemma ObjectTextLong(o: string)
    requires ObjectText(o)
    ensures |o| > 0
  {
  }

  /** Cut anywhere, the scanner returns exactly the objects completed before the cut. */
  lemma CutTolerant(ps: seq<Piece>, tail: string, n: nat)
    requires Streamed(ps, tail) && n <= |Text(ps, tail)|
    ensures SplitObjects(Text(ps, tail)[..n]) == Completed(ps, n)
  {
    CutFed(State(IDLE, "", []), ps, tail, n);
  }

  function Objects(ps: seq<Piece>): seq<string> {
    if ps == [] then [] else [ps[0].obj] + Objects(ps[1..])
  }

  lemma {:induction false} AllCompleted(ps: seq<Piece>, tail: string)
    ensures Completed(ps, |Text(ps, tail)|) == Objects(ps)
  {
    if ps != [] { AllCompleted(ps[1..], tail); }
  }

  /** Uncut, it returns every object of the array, in order, byte for byte. */
  lemma ScannerExact(ps: seq<Piece>, tail: string)
    requires Streamed(ps, tail)
    ensures SplitObjects(Text(ps, tail)) == Objects(ps)
  {
    var text := Text(ps, tail);
    assert text[..|text|] == text;
    CutTolerant(ps, tail, |text|);
    AllCompleted(ps, tail);
  }
}
