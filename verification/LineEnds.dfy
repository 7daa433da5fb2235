/** Streams whose lines end in CR LF. */
module LineEnds {
  import opened Lists
  import opened Sse
  import opened Dialects

  /** A text with a carriage return put before each line feed. */
  function Crlf(s: string): string {
    if s == "" then "" else (if s[0] == '\n' then "\r\n" else [s[0]]) + Crlf(s[1..])
  }

  lemma {:induction false} CrlfFirstLine(s: string)
    requires '\r' !in s
    ensures var n := LineLen(s);
      && '\n' !in s[..n]
      && Crlf(s) == s[..n] + if n < |s| then "\r\n" + Crlf(AfterLine(s)) else ""
  {
    if s != "" && s[0] != '\n' {
      CrlfFirstLine(s[1..]);
      var n := LineLen(s[1..]);
      assert s == [s[0]] + s[1..];
      assert s[..n + 1] == [s[0]] + s[1..][..n];
      Assoc([s[0]], s[1..][..n], if n < |s[1..]| then "\r\n" + Crlf(AfterLine(s[1..])) else "");
    } else if s != "" {
      assert s[..0] == "" && "" + ("\r\n" + Crlf(s[1..])) == "\r\n" + Crlf(s[1..]);
    }
  }

  lemma {:induction false} LineLenIs(line: string, rest: string)
    requires '\n' !in line
    ensures LineLen(line + rest) == |line| + LineLen(rest)
  {
    if line == "" {
      assert line + rest == rest;
    } else {
      assert (line + rest)[1..] == line[1..] + rest;
      LineLenIs(line[1..], rest);
    }
  }

  /** The first line, read with its carriage return. */
  lemma ReturnDropped(line: string, rest: string)
    requires '\n' !in line
    ensures var s := line + ("\r\n" + rest);
      LineLen(s) == |line| + 1 && DropCR(s[..|line| + 1]) == line && AfterLine(s) == rest
  {
    var s := line + ("\r\n" + rest);
    LineLenIs(line, "\r\n" + rest);
    assert ("\r\n" + rest)[1..][0] == '\n';
    assert LineLen("\r\n" + rest) == 1;
    assert s[..|line| + 1] == line + "\r" && (line + "\r")[..|line|] == line;
    assert s[|line| + 2..] == rest;
  }

  lemma NoReturn(line: string)
    requires '\r' !in line
    ensures DropCR(line) == line
  {
    if line != "" { assert line[|line| - 1] in line; }
  }

  /** The lines are the same, an unterminated last one included. */
  lemma {:induction false} SameLines(s: string)
    requires '\r' !in s
    ensures Lines(Crlf(s)) == Lines(s)
    decreases |s|
  {
    if s != "" {
      var n := LineLen(s);
      var line, rest := s[..n], AfterLine(s);
      assert '\r' !in line;
      CrlfFirstLine(s);
      NoReturn(line);
      if n < |s| {
        assert '\r' !in rest;
        ReturnDropped(line, Crlf(rest));
        SameLines(rest);
      } else {
        assert line == s && line + "" == line && Crlf(s) == s;
      }
    }
  }

  /** A stream whose lines end in CR LF has the events, and in each of the event-framed dialects the turn, of
      the same stream with plain line feeds. */
  lemma ReturnsIgnored(raw: string)
    requires '\r' !in raw
    ensures Events(Crlf(raw)) == Events(raw)
    ensures Decode(Anthropic, Crlf(raw)) == Decode(Anthropic, raw)
    ensures Decode(OpenAIChat, Crlf(raw)) == Decode(OpenAIChat, raw)
    ensures Decode(OpenAIResponses, Crlf(raw)) == Decode(OpenAIResponses, raw)
  {
    SameLines(raw);
    SameEvents(raw, Crlf(raw));
  }

  lemma SameEvents(raw: string, other: string)
    requires Events(raw) == Events(other)
    ensures Decode(Anthropic, raw) == Decode(Anthropic, other)
    ensures Decode(OpenAIChat, raw) == Decode(OpenAIChat, other)
    ensures Decode(OpenAIResponses, raw) == Decode(OpenAIResponses, other)
  {
    assert Ant.Decode(raw) == Ant.Decode(other) && Oai.Decode(raw) == Oai.Decode(other) && Rsp.Decode(raw) == Rsp.Decode(other);
  }

  // ---------------------------------------------------------------- streams cut off at a line end

  lemma {:induction false} FirstLineLonger(s: string, more: string)
    requires LineLen(s) < |s|
    ensures LineLen(s + more) == LineLen(s) && (s + more)[..LineLen(s)] == s[..LineLen(s)]
    ensures AfterLine(s + more) == AfterLine(s) + more
  {
    var n := LineLen(s);
    if s[0] != '\n' {
      assert (s + more)[1..] == s[1..] + more;
      FirstLineLonger(s[1..], more);
    }
    assert (s + more)[n + 1..] == s[n + 1..] + more;
  }

  lemma {:induction false} NoBreakInFirst(s: string)
    ensures '\n' !in s[..LineLen(s)] && (LineLen(s) < |s| ==> s[LineLen(s)] == '\n')
  {
    if s != "" && s[0] != '\n' {
      NoBreakInFirst(s[1..]);
      var n := LineLen(s[1..]);
      assert s[..n + 1] == [s[0]] + s[1..][..n];
    }
  }

  /** A last line counts whether its line end came or not, and further line ends are blank lines. */
  lemma {:induction false} LinesGoOn(s: string, more: string)
    requires s != "" && s[|s| - 1] != '\n'
    ensures Lines(s + ("\n" + more)) == Lines(s) + Lines(more)
    decreases |s|
  {
    var n := LineLen(s);
    NoBreakInFirst(s);
    if n < |s| {
      FirstLineLonger(s, "\n" + more);
      assert AfterLine(s) == s[n + 1..] && AfterLine(s)[|AfterLine(s)| - 1] == s[|s| - 1];
      LinesGoOn(AfterLine(s), more);
      Assoc([DropCR(s[..n])], Lines(AfterLine(s)), Lines(more));
    } else {
      assert s[..n] == s;
      LineLenIs(s, "\n" + more);
      assert LineLen("\n" + more) == 0;
      assert (s + ("\n" + more))[..n] == s && (s + ("\n" + more))[n + 1..] == more;
      NothingAdded([DropCR(s)]);
      assert AfterLine(s) == "" && Lines(s) == [DropCR(s)] + Lines("");
    }
  }

  lemma {:induction false} BlankAtEnd(lines: seq<string>, event: string, data: string)
    ensures Dispatch(lines + [""], event, data) == Dispatch(lines, event, data)
    decreases |lines|
  {
    if lines == [] {
      assert lines + [""] == [""] && [""][1..] == [];
      NothingAdded(Flush(event, data));
    } else {
      assert (lines + [""])[1..] == lines[1..] + [""] && (lines + [""])[0] == lines[0];
      BlankAtEnd(lines[1..], if lines[0] == "" then "" else Accept(lines[0], event, data).typ,
                 if lines[0] == "" then "" else Accept(lines[0], event, data).data);
    }
  }

  /** A stream cut off in its last line end, or between it and the blank line, has lost nothing: what was
      pending is dispatched at the end of the stream. */
  lemma UnfinishedFlushed(s: string)
    requires s != "" && s[|s| - 1] != '\n'
    ensures Events(s) == Events(s + "\n") == Events(s + "\n\n")
  {
    LinesGoOn(s, "");
    LinesGoOn(s, "\n");
    NothingAdded("\n");
    NothingAdded(Lines(s));
    assert "\n" + "\n" == "\n\n";
    assert Lines("") == [] && AfterLine("\n") == "" && Lines("\n") == [""] by { assert "\n"[..0] == ""; }
    BlankAtEnd(Lines(s), "", "");
  }

  // ---------------------------------------------------------------- fields

  lemma {:induction false} NameEnds(line: string, n: nat)
    requires n < |line| && line[n] == ':' && forall i | 0 <= i < n :: line[i] != ':'
    ensures ColonAt(line) == n
  {
    if n > 0 { NameEnds(line[1..], n - 1); }
  }

  /** One space after the colon is not part of a value, and there need not be one; a line without a colon is
      a name with nothing after it; of a field under any other name, and of a comment, nothing is taken. */
  lemma FieldsTaken(name: string, value: string, event: string, data: string)
    requires ':' !in name
    ensures var tight, spaced := Accept(name + (":" + value), event, data), Accept(name + (": " + value), event, data);
      && spaced == Took(name, value, event, data)
      && (value == "" || value[0] != ' ' ==> tight == Took(name, value, event, data))
      && Accept(name, event, data) == Took(name, "", event, data)
  {
    var tight, spaced := name + (":" + value), name + (": " + value);
    NameEnds(tight, |name|);
    NameEnds(spaced, |name|);
    assert tight[..|name|] == name && tight[|name| + 1..] == value;
    assert spaced[..|name|] == name && spaced[|name| + 1..] == " " + value && (" " + value)[1..] == value;
    NoColon(name);
    assert name[..|name|] == name;
  }

  lemma {:induction false} NoColon(name: string)
    requires ':' !in name
    ensures ColonAt(name) == |name|
  {
    if name != "" { NoColon(name[1..]); }
  }

  function Took(name: string, value: string, event: string, data: string): Event {
    match name
    case "event" => Event(value, data)
    case "data" => Event(event, data + value + "\n")
    case _ => Event(event, data)
  }
}
