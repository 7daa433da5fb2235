/** The stream framing shared by the dialects: the frame printer, the line scanner that dispatches events
    at blank lines and at the end of the stream, and the newline-delimited form. */
module Sse {
  import opened Lists
  import opened Options
  import opened Json

  datatype Event = Event(typ: string, data: string)

  // ---------------------------------------------------------------- printing

  function NameText(event: string): string {
    if event != "" then "event: " + event + "\n" else ""
  }

  function DataText(data: string): string {
    "data: " + data + "\n" + "\n"
  }

  function FrameText(event: string, data: string): string {
    NameText(event) + DataText(data)
  }

  /** A frame as the encoders emit it: an event name, possibly empty, and a JSON payload. */
  datatype Frame = Frame(event: string, payload: Value)

  function Render(frames: seq<Frame>): string {
    if frames == [] then "" else FrameText(frames[0].event, Print(frames[0].payload)) + Render(frames[1..])
  }

  lemma {:induction false} RenderAppend(a: seq<Frame>, b: seq<Frame>)
    ensures Render(a + b) == Render(a) + Render(b)
  {
    if a == [] {
      assert a + b == b;
    } else {
      assert (a + b)[1..] == a[1..] + b;
      RenderAppend(a[1..], b);
    }
  }

  /** Appends one frame to the text written so far. */
  method Emit(b: string, ghost done: seq<Frame>, f: Frame) returns (r: string)
    requires b == Render(done)
    ensures r == Render(done + [f])
  {
    r := b + FrameText(f.event, Print(f.payload));
    RenderAppend(done, [f]);
    RenderOne(f);
  }

  lemma RenderOne(f: Frame)
    ensures Render([f]) == FrameText(f.event, Print(f.payload))
  {
    assert [f][1..] == [];
  }

  lemma RenderNonEmpty(frames: seq<Frame>)
    requires frames != []
    ensures Render(frames) != ""
  {
    assert |DataText(Print(frames[0].payload))| > 0;
  }

  // ---------------------------------------------------------------- scanning

  /** The length of the first line of s. */
  function LineLen(s: string): (n: nat)
    ensures n <= |s|
  {
    if s == "" || s[0] == '\n' then 0 else 1 + LineLen(s[1..])
  }

  /** The line scanner drops one carriage return before the line end. */
  function DropCR(line: string): string {
    if line != "" && line[|line| - 1] == '\r' then line[..|line| - 1] else line
  }

  function AfterLine(s: string): (rest: string)
    ensures s != "" ==> |rest| < |s|
  {
    var n := LineLen(s);
    if n < |s| then s[n + 1..] else ""
  }

  function ColonAt(s: string): (n: nat)
    ensures n <= |s|
  {
    if s == "" || s[0] == ':' then 0 else 1 + ColonAt(s[1..])
  }

  function FieldName(line: string): string {
    line[..ColonAt(line)]
  }

  /** What follows the colon, less one leading space. */
  function FieldValue(line: string): string {
    var v := if ColonAt(line) < |line| then line[ColonAt(line) + 1..] else "";
    if v != "" && v[0] == ' ' then v[1..] else v
  }

  function Flush(event: string, data: string): seq<Event> {
    if event == "" && data == "" then [] else [Event(event, data)]
  }

  /** The pending event after one non-blank line; comments and unknown fields leave it as it is. */
  function Accept(line: string, event: string, data: string): Event {
    if FieldName(line) == "event" then Event(FieldValue(line), data)
    else if FieldName(line) == "data" then Event(event, data + FieldValue(line) + "\n")
    else Event(event, data)
  }

  /** The lines of a text, line ends dropped; an unterminated last line counts. */
  function Lines(s: string): seq<string>
    decreases |s|
  {
    if s == "" then [] else [DropCR(s[..LineLen(s)])] + Lines(AfterLine(s))
  }

  /** The events of some lines, given the event name and the data collected so far. */
  function Dispatch(lines: seq<string>, event: string, data: string): seq<Event>
    decreases |lines|
  {
    if lines == [] then Flush(event, data)
    else if lines[0] == "" then Flush(event, data) + Dispatch(lines[1..], "", "")
    else
      var p := Accept(lines[0], event, data);
      Dispatch(lines[1..], p.typ, p.data)
  }

  function Events(raw: string): seq<Event> {
    Dispatch(Lines(raw), "", "")
  }

  lemma DispatchOne(line: string, more: seq<string>, event: string, data: string)
    ensures Dispatch([line] + more, event, data)
         == if line == "" then Flush(event, data) + Dispatch(more, "", "")
            else Dispatch(more, Accept(line, event, data).typ, Accept(line, event, data).data)
  {
    assert ([line] + more)[1..] == more;
  }

  /** One turn of the scanner's loop: the events dispatched and the pending event after it. */
  function Turn(line: string, event: string, data: string): (seq<Event>, Event) {
    if line == "" then (Flush(event, data), Event("", "")) else ([], Accept(line, event, data))
  }

  lemma TurnDispatches(rest: string, event: string, data: string, events: seq<Event>)
    requires rest != ""
    ensures var t := Turn(DropCR(rest[..LineLen(rest)]), event, data);
      events + Dispatch(Lines(rest), event, data)
      == (events + t.0) + Dispatch(Lines(AfterLine(rest)), t.1.typ, t.1.data)
  {
    var line := DropCR(rest[..LineLen(rest)]);
    DispatchOne(line, Lines(AfterLine(rest)), event, data);
    var t := Turn(line, event, data);
    Assoc(events, t.0, Dispatch(Lines(AfterLine(rest)), t.1.typ, t.1.data));
  }

  /** One line: a blank one dispatches, any other updates the pending event. */
  method TakeLine(line: string, event: string, data: string) returns (out: seq<Event>, event': string, data': string)
    ensures (out, Event(event', data')) == Turn(line, event, data)
  {
    out, event', data' := [], event, data;
    if line == "" {
      if !(event == "" && data == "") {
        out := [Event(event, data)];
      }
      event', data' := "", "";
    } else {
      var name, value := FieldName(line), FieldValue(line);
      if name == "event" {
        event' := value;
      } else if name == "data" {
        data' := data + value + "\n";
      }
    }
  }

  /** The scanner as it runs over the lines. */
  method ParseSSE(raw: string) returns (events: seq<Event>)
    ensures events == Events(raw)
  {
    events := [];
    var event, data := "", "";
    var rest := raw;
    while rest != ""
      invariant Events(raw) == events + Dispatch(Lines(rest), event, data)
      decreases |rest|
    {
      TurnDispatches(rest, event, data, events);
      var out;
      out, event, data := TakeLine(DropCR(rest[..LineLen(rest)]), event, data);
      events := events + out;
      rest := AfterLine(rest);
    }
    if !(event == "" && data == "") {
      events := events + [Event(event, data)];
    }
  }

  // ---------------------------------------------------------------- scanning what was printed

  /** No control characters: a line as the JSON printer produces it. */
  predicate Clean(s: string) {
    forall i | 0 <= i < |s| :: s[i] >= ' '
  }

  lemma {:induction false} LineLenOf(line: string, rest: string)
    requires Clean(line)
    ensures LineLen(line + "\n" + rest) == |line|
  {
    if line != "" {
      assert (line + "\n" + rest)[1..] == line[1..] + "\n" + rest;
      LineLenOf(line[1..], rest);
    }
  }

  lemma FirstLine(line: string, rest: string)
    requires Clean(line)
    ensures var s := line + "\n" + rest;
      LineLen(s) == |line| && s[..|line|] == line && DropCR(line) == line && AfterLine(s) == rest
  {
    LineLenOf(line, rest);
    assert (line + "\n" + rest)[|line| + 1..] == rest;
  }

  lemma {:induction false} ColonAfter(name: string, more: string)
    requires forall i | 0 <= i < |name| :: name[i] != ':'
    ensures ColonAt(name + ":" + more) == |name|
  {
    if name != "" {
      assert (name + ":" + more)[1..] == name[1..] + ":" + more;
      ColonAfter(name[1..], more);
    }
  }

  lemma LineScans(line: string, rest: string)
    requires Clean(line)
    ensures Lines(line + "\n" + rest) == [line] + Lines(rest)
  {
    FirstLine(line, rest);
  }

  lemma AcceptField(name: string, value: string, event: string, data: string)
    requires name == "event" || name == "data"
    ensures Accept(name + ": " + value, event, data)
         == if name == "event" then Event(value, data) else Event(event, data + value + "\n")
  {
    var line := name + ": " + value;
    assert line == name + ":" + (" " + value);
    ColonAfter(name, " " + value);
    assert line[..|name|] == name && line[|name| + 1..] == " " + value;
    assert (" " + value)[1..] == value;
  }

  function NameLines(event: string): seq<string> {
    if event != "" then ["event: " + event] else []
  }

  /** The lines of one frame. */
  function FrameLines(event: string, d: string): seq<string> {
    NameLines(event) + ["data: " + d, ""]
  }

  lemma LineAndBlank(line: string, rest: string)
    requires Clean(line)
    ensures Lines(line + "\n" + "\n" + rest) == [line, ""] + Lines(rest)
  {
    Assoc(line + "\n", "\n", rest);
    LineScans(line, "\n" + rest);
    LineScans("", rest);
    assert "" + "\n" == "\n";
    Assoc([line], [""], Lines(rest));
  }

  lemma DataScans(d: string, rest: string)
    requires Clean(d)
    ensures Lines(DataText(d) + rest) == ["data: " + d, ""] + Lines(rest)
  {
    LineAndBlank("data: " + d, rest);
  }

  lemma NameScans(event: string, rest: string)
    requires Clean(event)
    ensures Lines(NameText(event) + rest) == NameLines(event) + Lines(rest)
  {
    if event == "" {
      assert NameText(event) + rest == rest;
    } else {
      LineScans("event: " + event, rest);
    }
  }

  lemma FrameLinesScan(event: string, d: string, rest: string)
    requires Clean(event) && Clean(d)
    ensures Lines(FrameText(event, d) + rest) == FrameLines(event, d) + Lines(rest)
  {
    DataScans(d, rest);
    NameScans(event, DataText(d) + rest);
    Assoc(NameText(event), DataText(d), rest);
    Assoc(NameLines(event), ["data: " + d, ""], Lines(rest));
  }

  lemma DataDispatches(event: string, d: string, more: seq<string>)
    ensures Dispatch(["data: " + d, ""] + more, event, "") == [Event(event, d + "\n")] + Dispatch(more, "", "")
  {
    var line := "data: " + d;
    assert ["data: " + d, ""] + more == [line] + ([""] + more);
    DispatchOne(line, [""] + more, event, "");
    assert Accept(line, event, "") == Event(event, d + "\n") by {
      AcceptField("data", d, event, "");
      assert "data" + ": " + d == line && "" + d + "\n" == d + "\n";
    }
    DispatchOne("", more, event, d + "\n");
  }

  lemma NameDispatches(event: string, more: seq<string>)
    ensures Dispatch(NameLines(event) + more, "", "") == Dispatch(more, event, "")
  {
    if event == "" {
      assert NameLines(event) + more == more;
    } else {
      var line := "event: " + event;
      DispatchOne(line, more, "", "");
      AcceptField("event", event, "", "");
      assert "event" + ": " + event == line;
    }
  }

  /** A printed frame dispatches as one event carrying the payload and a line end. */
  lemma FrameDispatches(event: string, d: string, more: seq<string>)
    ensures Dispatch(FrameLines(event, d) + more, "", "") == [Event(event, d + "\n")] + Dispatch(more, "", "")
  {
    var lines := ["data: " + d, ""];
    Assoc(NameLines(event), lines, more);
    NameDispatches(event, lines + more);
    DataDispatches(event, d, more);
  }

  lemma EscapeClean(c: char)
    ensures Clean(Escape(c))
  {
  }

  lemma {:induction false} EscapeToClean(s: string, k: string)
    requires Clean(k)
    ensures Clean(EscapeTo(s, k))
  {
    if s != "" {
      EscapeClean(s[0]);
      EscapeToClean(s[1..], k);
    }
  }

  lemma {:induction false} NumberClean(t: string, st: NumState)
    requires RunNumber(t, st).rest == ""
    ensures Clean(t)
  {
    if t != "" { NumberClean(t[1..], NumStep(st, t[0]).value); }
  }

  lemma {:induction false} PrintToClean(v: Value, k: string)
    requires Printable(v) && Clean(k)
    ensures Clean(PrintTo(v, k))
    decreases v
  {
    match v
    case Num(t) => NumberClean(t, Start);
    case Str(s) => EscapeToClean(s, "\"" + k);
    case Arr(items) => if items.Cons? { ItemsToClean(items, k); }
    case Obj(fields) => if fields.Cons? { FieldsToClean(fields, k); }
    case _ =>
  }

  lemma {:induction false} ItemsToClean(items: List<Value>, k: string)
    requires items.Cons? && PrintableItems(items) && Clean(k)
    ensures Clean(ItemsTo(items, k))
    decreases items
  {
    if items.tail.Cons? { ItemsToClean(items.tail, k); }
    PrintToClean(items.head, if items.tail.Nil? then "]" + k else "," + ItemsTo(items.tail, k));
  }

  lemma {:induction false} FieldsToClean(fields: List<Field>, k: string)
    requires fields.Cons? && PrintableFields(fields) && Clean(k)
    ensures Clean(FieldsTo(fields, k))
    decreases fields
  {
    if fields.tail.Cons? { FieldsToClean(fields.tail, k); }
    var after := if fields.tail.Nil? then "}" + k else "," + FieldsTo(fields.tail, k);
    PrintToClean(fields.head.val, after);
    EscapeToClean(fields.head.key, "\"" + (":" + PrintTo(fields.head.val, after)));
  }

  /** JSON payloads carry no line breaks. */
  lemma PrintClean(v: Value)
    requires Printable(v)
    ensures Clean(Print(v))
  {
    PrintToClean(v, "");
  }

  predicate WellFramed(frames: seq<Frame>) {
    forall f <- frames :: Clean(f.event) && Printable(f.payload)
  }

  function FrameEvents(frames: seq<Frame>): seq<Event> {
    if frames == [] then []
    else [Event(frames[0].event, Print(frames[0].payload) + "\n")] + FrameEvents(frames[1..])
  }

  /** Each frame carries what a dialect reads from it. */
  predicate AllCarry<D>(carries: (Frame, D) -> bool, fs: seq<Frame>, ds: seq<D>) {
    |fs| == |ds| && forall i | 0 <= i < |fs| :: carries(fs[i], ds[i])
  }

  lemma CarryAppend<D>(carries: (Frame, D) -> bool, fs: seq<Frame>, ds: seq<D>, gs: seq<Frame>, es: seq<D>)
    requires AllCarry(carries, fs, ds) && AllCarry(carries, gs, es)
    ensures AllCarry(carries, fs + gs, ds + es)
  {
  }

  lemma CarryOne<D>(carries: (Frame, D) -> bool, f: Frame, d: D)
    requires carries(f, d)
    ensures AllCarry(carries, [f], [d])
  {
  }

  lemma CarryTwo<D>(carries: (Frame, D) -> bool, f: Frame, g: Frame, d: D, e: D)
    requires carries(f, d) && carries(g, e)
    ensures AllCarry(carries, [f] + [g], [d] + [e])
  {
  }

  lemma FramesFirst(f: Frame, rest: seq<Frame>)
    requires Clean(f.event) && Printable(f.payload) && WellFramed(rest)
    ensures WellFramed([f] + rest)
    ensures FrameEvents([f] + rest) == [Event(f.event, Print(f.payload) + "\n")] + FrameEvents(rest)
  {
    assert ([f] + rest)[1..] == rest;
  }

  lemma {:induction false} RenderScansBefore(frames: seq<Frame>, rest: string)
    requires WellFramed(frames)
    ensures Events(Render(frames) + rest) == FrameEvents(frames) + Events(rest)
  {
    if frames == [] {
      assert Render(frames) + rest == rest;
    } else {
      var f := frames[0];
      var e, text := Event(f.event, Print(f.payload) + "\n"), FrameText(f.event, Print(f.payload));
      Assoc(text, Render(frames[1..]), rest);
      FrameScans(f, Render(frames[1..]) + rest);
      RenderScansBefore(frames[1..], rest);
      Assoc([e], FrameEvents(frames[1..]), Events(rest));
    }
  }

  lemma FrameScans(f: Frame, more: string)
    requires Clean(f.event) && Printable(f.payload)
    ensures Events(FrameText(f.event, Print(f.payload)) + more) == [Event(f.event, Print(f.payload) + "\n")] + Events(more)
  {
    PrintClean(f.payload);
    FrameLinesScan(f.event, Print(f.payload), more);
    FrameDispatches(f.event, Print(f.payload), Lines(more));
  }

  /** The line scanner recovers exactly the frames the printer wrote. */
  lemma RenderScans(frames: seq<Frame>)
    requires WellFramed(frames)
    ensures Events(Render(frames)) == FrameEvents(frames)
  {
    RenderScansBefore(frames, "");
    assert Render(frames) + "" == Render(frames);
    assert Events("") == [];
  }

  // ---------------------------------------------------------------- trimming and newline-delimited lines

  /** Unicode white space, as the trimming functions see it. */
  predicate IsWhite(c: char) {
    var n := c as int;
    9 <= n <= 13 || n == 32 || n == 0x85 || n == 0xA0 || n == 0x1680 || 0x2000 <= n <= 0x200A
    || n == 0x2028 || n == 0x2029 || n == 0x202F || n == 0x205F || n == 0x3000
  }

  function TrimLeft(s: string): string {
    if s != "" && IsWhite(s[0]) then TrimLeft(s[1..]) else s
  }

  function TrimRight(s: string): string {
    if s != "" && IsWhite(s[|s| - 1]) then TrimRight(s[..|s| - 1]) else s
  }

  function TrimSpace(s: string): string {
    TrimRight(TrimLeft(s))
  }

  function NdLines(raw: string): seq<string>
    decreases |raw|
  {
    if LineLen(raw) == |raw| then [raw] else [raw[..LineLen(raw)]] + NdLines(AfterLine(raw))
  }

  lemma NdFirst(line: string, rest: string)
    requires Clean(line)
    ensures NdLines(line + "\n" + rest) == [line] + NdLines(rest)
  {
    FirstLine(line, rest);
    assert (line + "\n" + rest)[..|line|] == line;
  }

  // ---------------------------------------------------------------- printed texts end where they should

  lemma {:induction false} EscapeToSplits(s: string, k: string)
    ensures EscapeTo(s, k) == EscapeTo(s, "") + k
  {
    if s != "" {
      EscapeToSplits(s[1..], k);
      Assoc(Escape(s[0]), EscapeTo(s[1..], ""), k);
    }
  }

  lemma QuoteToSplits(s: string, a: string, k: string)
    ensures QuoteTo(s, a + k) == QuoteTo(s, a) + k
  {
    EscapeToSplits(s, "\"" + (a + k));
    EscapeToSplits(s, "\"" + a);
    Assoc("\"", a, k);
    Assoc(EscapeTo(s, ""), "\"" + a, k);
    Assoc("\"", EscapeTo(s, "\"" + a), k);
  }

  /** Printing before a text is printing, then the text. */
  lemma {:induction false} PrintToSplits(v: Value, a: string, k: string)
    ensures PrintTo(v, a + k) == PrintTo(v, a) + k
    decreases v
  {
    match v
    case Str(s) => QuoteToSplits(s, a, k);
    case Arr(items) => if items.Cons? { ItemsToSplits(items, a, k); }
    case Obj(fields) => if fields.Cons? { FieldsToSplits(fields, a, k); }
    case _ =>
  }

  lemma {:induction false} ItemsToSplits(items: List<Value>, a: string, k: string)
    requires items.Cons?
    ensures ItemsTo(items, a + k) == ItemsTo(items, a) + k
    decreases items
  {
    if items.tail.Nil? {
      Assoc("]", a, k);
      PrintToSplits(items.head, "]" + a, k);
    } else {
      ItemsToSplits(items.tail, a, k);
      Assoc(",", ItemsTo(items.tail, a), k);
      PrintToSplits(items.head, "," + ItemsTo(items.tail, a), k);
    }
  }

  lemma {:induction false} FieldsToSplits(fields: List<Field>, a: string, k: string)
    requires fields.Cons?
    ensures FieldsTo(fields, a + k) == FieldsTo(fields, a) + k
    decreases fields
  {
    var after := if fields.tail.Nil? then "}" + a else "," + FieldsTo(fields.tail, a);
    if fields.tail.Nil? {
      Assoc("}", a, k);
    } else {
      FieldsToSplits(fields.tail, a, k);
      Assoc(",", FieldsTo(fields.tail, a), k);
    }
    PrintToSplits(fields.head.val, after, k);
    Assoc(":", PrintTo(fields.head.val, after), k);
    QuoteToSplits(fields.head.key, ":" + PrintTo(fields.head.val, after), k);
  }

  /** A payload reads back from the event data it was carried in. */
  lemma PayloadParses(v: Value)
    requires Printable(v)
    ensures ParseDoc(Print(v) + "\n") == Some(v) && ParseDoc(Print(v)) == Some(v)
  {
    PrintToSplits(v, "", "\n");
    assert "" + "\n" == "\n";
    ReadPrinted(v, "\n");
    ReadPrinted(v, "");
    assert "\n"[1..] == "";
  }

  lemma {:induction false} FieldsLast(fields: List<Field>)
    requires fields.Cons?
    ensures var s := FieldsTo(fields, ""); s != "" && s[|s| - 1] == '}'
    decreases fields
  {
    var f := fields.head;
    var after := if fields.tail.Nil? then "}" else "," + FieldsTo(fields.tail, "");
    if fields.tail.Cons? { FieldsLast(fields.tail); }
    assert "}" + "" == "}" && "" + after == after;
    PrintToSplits(f.val, "", after);
    Assoc(":", Print(f.val), after);
    QuoteToSplits(f.key, ":" + Print(f.val), after);
  }

  /** A printed object starts and ends with its braces, so trimming leaves it whole. */
  lemma ObjectTrims(fields: List<Field>)
    ensures var s := Print(Obj(fields)); s != "" && TrimSpace(s + "\n") == s && TrimSpace(s) == s
  {
    var s := Print(Obj(fields));
    if fields.Cons? { FieldsLast(fields); }
    assert s[0] == '{' && s[|s| - 1] == '}';
    assert TrimLeft(s) == s && TrimLeft(s + "\n") == s + "\n";
    assert (s + "\n")[..|s|] == s && TrimRight(s) == s;
  }
}
