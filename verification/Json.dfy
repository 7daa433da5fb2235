/** JSON texts: the values the decoders read, the newline-free printer the encoders use, the reader that
    follows the grammar character by character, and the proof that reading undoes printing. */
module Json {
  import opened Lists
  import opened Options

  /** A JSON value as it stands in a text: fields in text order, duplicates kept, numbers as text. */
  datatype Value =
    | Null
    | Bool(b: bool)
    | Num(text: string)
    | Str(s: string)
    | Arr(items: List<Value>)
    | Obj(fields: List<Field>)

  datatype Field = Field(key: string, val: Value)

  // ---------------------------------------------------------------- printing

  function HexDigit(n: nat): char
    requires n < 16
  {
    "0123456789abcdef"[n]
  }

  function Hex4(n: nat): string
    requires n < 0x10000
  {
    [HexDigit(n / 4096), HexDigit(n / 256 % 16), HexDigit(n / 16 % 16), HexDigit(n % 16)]
  }

  /** How one character of a string is printed, with HTML escaping off. */
  function Escape(c: char): string {
    if c == '\"' then "\\\""
    else if c == '\\' then "\\\\"
    else if c == '\n' then "\\n"
    else if c == '\r' then "\\r"
    else if c == '\t' then "\\t"
    else if c as int == 8 then "\\b"
    else if c as int == 12 then "\\f"
    else if c < ' ' || c as int == 0x2028 || c as int == 0x2029 then "\\u" + Hex4(c as int)
    else [c]
  }

  // The printers take the text that follows, so that every printed text is built by prefixing.

  function EscapeTo(s: string, k: string): string {
    if s == "" then k else Escape(s[0]) + EscapeTo(s[1..], k)
  }

  function QuoteTo(s: string, k: string): string {
    "\"" + EscapeTo(s, "\"" + k)
  }

  function PrintTo(v: Value, k: string): string
    decreases v
  {
    match v
    case Null => "null" + k
    case Bool(b) => (if b then "true" else "false") + k
    case Num(t) => t + k
    case Str(s) => QuoteTo(s, k)
    case Arr(items) => "[" + (if items.Nil? then "]" + k else ItemsTo(items, k))
    case Obj(fields) => "{" + (if fields.Nil? then "}" + k else FieldsTo(fields, k))
  }

  function ItemsTo(items: List<Value>, k: string): string
    requires items.Cons?
    decreases items
  {
    PrintTo(items.head, if items.tail.Nil? then "]" + k else "," + ItemsTo(items.tail, k))
  }

  function FieldsTo(fields: List<Field>, k: string): string
    requires fields.Cons?
    decreases fields
  {
    QuoteTo(fields.head.key, ":" + PrintTo(fields.head.val,
      if fields.tail.Nil? then "}" + k else "," + FieldsTo(fields.tail, k)))
  }

  function Print(v: Value): string {
    PrintTo(v, "")
  }

  // ---------------------------------------------------------------- reading

  /** The states of the number grammar; a number text is a run from Start to an accepting state. */
  datatype NumState = Start | Neg | Zero | Digits | Dot | Frac | Exp | ExpSign | ExpDigits

  predicate IsDigit(c: char) { '0' <= c <= '9' }

  function NumStep(st: NumState, c: char): Option<NumState> {
    match st
    case Start => if c == '-' then Some(Neg) else if c == '0' then Some(Zero) else if IsDigit(c) then Some(Digits) else None
    case Neg => if c == '0' then Some(Zero) else if IsDigit(c) then Some(Digits) else None
    case Zero => if c == '.' then Some(Dot) else if c == 'e' || c == 'E' then Some(Exp) else None
    case Digits =>
      if IsDigit(c) then Some(Digits) else if c == '.' then Some(Dot) else if c == 'e' || c == 'E' then Some(Exp) else None
    case Dot => if IsDigit(c) then Some(Frac) else None
    case Frac => if IsDigit(c) then Some(Frac) else if c == 'e' || c == 'E' then Some(Exp) else None
    case Exp => if c == '+' || c == '-' then Some(ExpSign) else if IsDigit(c) then Some(ExpDigits) else None
    case ExpSign => if IsDigit(c) then Some(ExpDigits) else None
    case ExpDigits => if IsDigit(c) then Some(ExpDigits) else None
  }

  predicate Accepting(st: NumState) { st.Zero? || st.Digits? || st.Frac? || st.ExpDigits? }

  datatype NumRun = NumRun(text: string, rest: string, last: NumState)

  /** The longest run of the number grammar at the front of s. */
  function RunNumber(s: string, st: NumState): (r: NumRun)
    ensures r.text + r.rest == s
  {
    if s == "" || NumStep(st, s[0]).None? then NumRun("", s, st)
    else
      var r := RunNumber(s[1..], NumStep(st, s[0]).value);
      NumRun([s[0]] + r.text, r.rest, r.last)
  }

  predicate ValidNumber(t: string) {
    var r := RunNumber(t, Start);
    r.rest == "" && Accepting(r.last)
  }

  function HexVal(c: char): (r: Option<nat>)
    ensures r.Some? ==> r.value < 16
  {
    if '0' <= c <= '9' then Some(c as int - '0' as int)
    else if 'a' <= c <= 'f' then Some(c as int - 'a' as int + 10)
    else if 'A' <= c <= 'F' then Some(c as int - 'A' as int + 10)
    else None
  }

  /** The code unit of a backslash-u escape at the front of s. */
  function ReadUnit(s: string): (r: Option<nat>)
    ensures r.Some? ==> r.value < 0x10000
  {
    if |s| < 6 || s[0] != '\\' || s[1] != 'u' then None
    else
      var a :- HexVal(s[2]);
      var b :- HexVal(s[3]);
      var c :- HexVal(s[4]);
      var d :- HexVal(s[5]);
      Some(a * 4096 + b * 256 + c * 16 + d)
  }

  const REPLACEMENT: char := 0xFFFD as char

  datatype StrRead = StrFail | StrOk(s: string, rest: string)

  /** Reads the inside of a string literal up to and including its closing quote. An unpaired
      surrogate escape reads as the replacement character. */
  function ReadString(s: string): (r: StrRead)
    ensures r.StrOk? ==> |r.rest| < |s|
    decreases |s|
  {
    if s == "" then StrFail
    else if s[0] == '\"' then StrOk("", s[1..])
    else if s[0] == '\\' then
      if |s| < 2 then StrFail
      else if s[1] == 'u' then
        var u := ReadUnit(s);
        if u.None? then StrFail
        else if 0xD800 <= u.value < 0xE000 then
          var lo := ReadUnit(s[6..]);
          if u.value < 0xDC00 && lo.Some? && 0xDC00 <= lo.value < 0xE000 then
            Prepend(((u.value - 0xD800) * 1024 + (lo.value - 0xDC00) + 0x10000) as char, ReadString(s[12..]))
          else Prepend(REPLACEMENT, ReadString(s[6..]))
        else Prepend(u.value as char, ReadString(s[6..]))
      else
        var c := Unescape(s[1]);
        if c.None? then StrFail else Prepend(c.value, ReadString(s[2..]))
    else if s[0] < ' ' then StrFail
    else Prepend(s[0], ReadString(s[1..]))
  }

  function Prepend(c: char, r: StrRead): StrRead {
    if r.StrFail? then StrFail else StrOk([c] + r.s, r.rest)
  }

  function Unescape(c: char): Option<char> {
    if c == '\"' || c == '\\' || c == '/' then Some(c)
    else if c == 'b' then Some(8 as char)
    else if c == 'f' then Some(12 as char)
    else if c == 'n' then Some('\n')
    else if c == 'r' then Some('\r')
    else if c == 't' then Some('\t')
    else None
  }

  predicate IsSpace(c: char) { c == ' ' || c == '\t' || c == '\r' || c == '\n' }

  function Skip(s: string): (r: string)
    ensures |r| <= |s|
    ensures r != "" ==> !IsSpace(r[0])
  {
    if s != "" && IsSpace(s[0]) then Skip(s[1..]) else s
  }

  datatype Read<+T> = Fail | Ok(v: T, rest: string)

  function ReadWord(s: string, w: string, v: Value): (r: Read<Value>)
    requires w != ""
    ensures r.Ok? ==> |r.rest| < |s|
  {
    if w <= s then Ok(v, s[|w|..]) else Fail
  }

  /** Reads one value at the front of s, white space before it allowed. */
  function ReadValue(s: string): (r: Read<Value>)
    ensures r.Ok? ==> |r.rest| < |s|
    decreases |s|, 1
  {
    var t := Skip(s);
    if t == "" then Fail else ReadSolid(t)
  }

  function ReadSolid(t: string): (r: Read<Value>)
    requires t != ""
    ensures r.Ok? ==> |r.rest| < |t|
    decreases |t|, 0
  {
    if t[0] == 'n' then ReadWord(t, "null", Null)
    else if t[0] == 't' then ReadWord(t, "true", Bool(true))
    else if t[0] == 'f' then ReadWord(t, "false", Bool(false))
    else if t[0] == '\"' then
      var r := ReadString(t[1..]);
      if r.StrFail? then Fail else Ok(Str(r.s), r.rest)
    else if t[0] == '[' then
      var u := Skip(t[1..]);
      if u != "" && u[0] == ']' then Ok(Arr(Nil), u[1..])
      else
        var r := ReadItems(t[1..]);
        if r.Fail? then Fail else Ok(Arr(r.v), r.rest)
    else if t[0] == '{' then
      var u := Skip(t[1..]);
      if u != "" && u[0] == '}' then Ok(Obj(Nil), u[1..])
      else
        var r := ReadFields(t[1..]);
        if r.Fail? then Fail else Ok(Obj(r.v), r.rest)
    else ReadNumber(t)
  }

  function ReadNumber(t: string): (r: Read<Value>)
    requires t != ""
    ensures r.Ok? ==> |r.rest| < |t|
  {
    var n := RunNumber(t, Start);
    if Accepting(n.last) then Ok(Num(n.text), n.rest) else Fail
  }

  function ReadItems(s: string): (r: Read<List<Value>>)
    ensures r.Ok? ==> |r.rest| < |s|
    decreases |s|, 2
  {
    var x := ReadValue(s);
    if x.Fail? then Fail
    else
      var t := Skip(x.rest);
      if t == "" then Fail
      else if t[0] == ']' then Ok(Cons(x.v, Nil), t[1..])
      else if t[0] == ',' then
        var r := ReadItems(t[1..]);
        if r.Fail? then Fail else Ok(Cons(x.v, r.v), r.rest)
      else Fail
  }

  function ReadFields(s: string): (r: Read<List<Field>>)
    ensures r.Ok? ==> |r.rest| < |s|
    decreases |s|, 2
  {
    var t := Skip(s);
    if t == "" || t[0] != '\"' then Fail
    else
      var key := ReadString(t[1..]);
      if key.StrFail? then Fail
      else
        var u := Skip(key.rest);
        if u == "" || u[0] != ':' then Fail
        else
          var x := ReadValue(u[1..]);
          if x.Fail? then Fail
          else
            var w := Skip(x.rest);
            if w == "" then Fail
            else if w[0] == '}' then Ok(Cons(Field(key.s, x.v), Nil), w[1..])
            else if w[0] == ',' then
              var r := ReadFields(w[1..]);
              if r.Fail? then Fail else Ok(Cons(Field(key.s, x.v), r.v), r.rest)
            else Fail
  }

  /** A whole text holding one value and nothing else but white space. */
  function ParseDoc(s: string): Option<Value> {
    var r := ReadValue(s);
    if r.Ok? && Skip(r.rest) == "" then Some(r.v) else None
  }

  // ---------------------------------------------------------------- reading back what was printed

  /** Every number text in the value follows the number grammar. */
  predicate Printable(v: Value)
    decreases v
  {
    match v
    case Num(t) => ValidNumber(t)
    case Arr(items) => PrintableItems(items)
    case Obj(fields) => PrintableFields(fields)
    case _ => true
  }

  predicate PrintableItems(items: List<Value>)
    decreases items
  {
    items.Cons? ==> Printable(items.head) && PrintableItems(items.tail)
  }

  predicate PrintableFields(fields: List<Field>)
    decreases fields
  {
    fields.Cons? ==> Printable(fields.head.val) && PrintableFields(fields.tail)
  }

  /** A text that cannot extend a number standing before it. */
  predicate StopsNumber(k: string) {
    k != "" ==> !IsDigit(k[0]) && k[0] != '.' && k[0] != 'e' && k[0] != 'E'
  }

  lemma HexPlaces(n: nat)
    requires n < 0x10000
    ensures n / 4096 < 16 && n / 4096 * 4096 + n / 256 % 16 * 256 + n / 16 % 16 * 16 + n % 16 == n
  {
    assert n == n / 16 * 16 + n % 16;
    assert n / 16 == n / 256 * 16 + n / 16 % 16;
    assert n / 256 == n / 4096 * 16 + n / 256 % 16;
  }

  lemma UnitReads(a: char, b: char, c: char, d: char, rest: string)
    requires HexVal(a).Some? && HexVal(b).Some? && HexVal(c).Some? && HexVal(d).Some?
    ensures ReadUnit("\\u" + [a, b, c, d] + rest)
         == Some(HexVal(a).value * 4096 + HexVal(b).value * 256 + HexVal(c).value * 16 + HexVal(d).value)
  {
    var s := "\\u" + [a, b, c, d] + rest;
    assert s[2] == a && s[3] == b && s[4] == c && s[5] == d;
  }

  lemma HexRoundTrip(n: nat, rest: string)
    requires n < 0x10000
    ensures ReadUnit("\\u" + Hex4(n) + rest) == Some(n)
  {
    HexPlaces(n);
    HexDigitRoundTrip(n / 4096);
    HexDigitRoundTrip(n / 256 % 16);
    HexDigitRoundTrip(n / 16 % 16);
    HexDigitRoundTrip(n % 16);
    UnitReads(HexDigit(n / 4096), HexDigit(n / 256 % 16), HexDigit(n / 16 % 16), HexDigit(n % 16), rest);
  }

  lemma HexDigitRoundTrip(n: nat)
    requires n < 16
    ensures HexVal(HexDigit(n)) == Some(n)
  {
  }

  /** One printed character reads back as itself. */
  lemma {:induction false} ReadEscaped(c: char, rest: string)
    ensures ReadString(Escape(c) + rest) == Prepend(c, ReadString(rest))
  {
    var s := Escape(c) + rest;
    if |Escape(c)| == 1 {
      assert s[1..] == rest;
    } else if |Escape(c)| == 2 {
      assert s[2..] == rest;
    } else {
      HexRoundTrip(c as int, rest);
      assert s[6..] == rest;
      assert (c as int) as char == c;
    }
  }

  lemma {:induction false} ReadPrintedString(s: string, k: string)
    ensures ReadString(EscapeTo(s, "\"" + k)) == StrOk(s, k)
  {
    if s == "" {
      assert ("\"" + k)[1..] == k;
    } else {
      ReadPrintedString(s[1..], k);
      ReadEscaped(s[0], EscapeTo(s[1..], "\"" + k));
      assert [s[0]] + s[1..] == s;
    }
  }

  lemma {:induction false} RunNumberExtends(t: string, k: string, st: NumState)
    requires var r := RunNumber(t, st); r.rest == "" && Accepting(r.last)
    requires StopsNumber(k)
    ensures RunNumber(t + k, st) == NumRun(t, k, RunNumber(t, st).last)
  {
    if t == "" {
      NumberStops(k, st);
      assert t + k == k;
    } else {
      var c, u := t[0], t[1..];
      assert t == [c] + u && t + k == [c] + (u + k);
      RunOne(c, u, st);
      RunNumberExtends(u, k, NumStep(st, c).value);
      RunOne(c, u + k, st);
    }
  }

  lemma NumberStops(k: string, st: NumState)
    requires Accepting(st) && StopsNumber(k)
    ensures RunNumber(k, st) == NumRun("", k, st)
  {
  }

  lemma RunOne(c: char, u: string, st: NumState)
    ensures RunNumber([c] + u, st)
         == if NumStep(st, c).None? then NumRun("", [c] + u, st)
            else
              var r := RunNumber(u, NumStep(st, c).value);
              NumRun([c] + r.text, r.rest, r.last)
  {
    assert ([c] + u)[1..] == u;
  }

  lemma {:induction false} SkipSolid(s: string)
    requires s != "" ==> !IsSpace(s[0])
    ensures Skip(s) == s
  {
  }

  lemma PrintToSolid(v: Value, k: string)
    requires Printable(v)
    ensures PrintTo(v, k) != "" && !IsSpace(PrintTo(v, k)[0])
    ensures PrintTo(v, k)[0] != ']' && PrintTo(v, k)[0] != '}'
  {
    if v.Num? {
      assert v.text != "";
    }
  }

  /** An object or an array read is at the front of the text. */
  lemma ContainerFront(s: string)
    requires ReadValue(s).Ok? && (ReadValue(s).v.Obj? || ReadValue(s).v.Arr?)
    ensures Skip(s) != "" && (Skip(s)[0] == '{' || Skip(s)[0] == '[')
  {
    var t := Skip(s);
    assert ReadSolid(t).Ok?;
    if t[0] != '{' && t[0] != '[' { ScalarFront(t); }
  }

  lemma ScalarFront(t: string)
    requires t != "" && t[0] != '{' && t[0] != '[' && ReadSolid(t).Ok?
    ensures !ReadSolid(t).v.Obj? && !ReadSolid(t).v.Arr?
  {
  }

  lemma NumberReads(s: string, t: string, k: string)
    requires s != "" && '-' <= s[0] <= '9' && ReadNumber(s) == Ok(Num(t), k)
    ensures ReadSolid(s) == Ok(Num(t), k)
  {
  }

  lemma StringReads(s: string, str: string, k: string)
    requires s != "" && s[0] == '\"' && ReadString(s[1..]) == StrOk(str, k)
    ensures ReadSolid(s) == Ok(Str(str), k)
  {
  }

  lemma ArrayReads(s: string, items: List<Value>, k: string)
    requires |s| > 1 && s[0] == '[' && !IsSpace(s[1]) && s[1] != ']' && ReadItems(s[1..]) == Ok(items, k)
    ensures ReadSolid(s) == Ok(Arr(items), k)
  {
    var u := s[1..];
    assert u != "" && u[0] == s[1];
    SkipSolid(u);
  }

  lemma ObjectReads(s: string, fields: List<Field>, k: string)
    requires |s| > 1 && s[0] == '{' && !IsSpace(s[1]) && s[1] != '}' && ReadFields(s[1..]) == Ok(fields, k)
    ensures ReadSolid(s) == Ok(Obj(fields), k)
  {
    var u := s[1..];
    assert u != "" && u[0] == s[1];
    SkipSolid(u);
  }

  /** Words and empty containers. */
  lemma ConstantReads(v: Value, k: string)
    requires v.Null? || v.Bool? || v == Arr(Nil) || v == Obj(Nil)
    ensures PrintTo(v, k) != "" && ReadSolid(PrintTo(v, k)) == Ok(v, k)
  {
    var s := PrintTo(v, k);
    match v
    case Null => assert s[4..] == k;
    case Bool(b) => assert s[if b then 4 else 5..] == k;
    case Arr(_) => assert s[1..] == "]" + k && ("]" + k)[1..] == k;
    case Obj(_) => assert s[1..] == "}" + k && ("}" + k)[1..] == k;
  }

  lemma NumberStart(t: string)
    requires ValidNumber(t)
    ensures t != "" && '-' <= t[0] <= '9'
  {
  }

  lemma ReadPrintedNumber(t: string, k: string)
    requires ValidNumber(t) && StopsNumber(k)
    ensures t != "" && ReadSolid(t + k) == Ok(Num(t), k)
  {
    NumberStart(t);
    NumberText(t, k);
    NumberReads(t + k, t, k);
  }

  lemma NumberText(t: string, k: string)
    requires ValidNumber(t) && t != "" && StopsNumber(k)
    ensures ReadNumber(t + k) == Ok(Num(t), k)
  {
    RunNumberExtends(t, k, Start);
  }

  /** Printing then reading is the identity, whatever follows. */
  lemma {:induction false} ReadPrinted(v: Value, k: string)
    requires Printable(v)
    requires v.Num? ==> StopsNumber(k)
    ensures ReadValue(PrintTo(v, k)) == Ok(v, k)
    decreases v
  {
    var s := PrintTo(v, k);
    PrintToSolid(v, k);
    SkipSolid(s);
    match v
    case Num(t) => ReadPrintedNumber(t, k);
    case Str(str) =>
      assert s[1..] == EscapeTo(str, "\"" + k);
      ReadPrintedString(str, k);
      StringReads(s, str, k);
    case Arr(Cons(_, _)) =>
      assert s[1..] == ItemsTo(v.items, k);
      ReadPrintedItems(v.items, k);
      PrintToSolid(v.items.head, if v.items.tail.Nil? then "]" + k else "," + ItemsTo(v.items.tail, k));
      ArrayReads(s, v.items, k);
    case Obj(Cons(_, _)) =>
      assert s[1..] == FieldsTo(v.fields, k);
      ReadPrintedFields(v.fields, k);
      ObjectReads(s, v.fields, k);
    case _ => ConstantReads(v, k);
  }

  lemma {:induction false} ReadPrintedItems(items: List<Value>, k: string)
    requires items.Cons? && PrintableItems(items)
    ensures ReadItems(ItemsTo(items, k)) == Ok(items, k)
    decreases items
  {
    if items.tail.Nil? {
      ReadPrinted(items.head, "]" + k);
      assert ("]" + k)[1..] == k;
    } else {
      var k' := "," + ItemsTo(items.tail, k);
      ReadPrinted(items.head, k');
      assert k'[1..] == ItemsTo(items.tail, k);
      ReadPrintedItems(items.tail, k);
    }
  }

  /** A field whose parts read reads, as the last one or before others. */
  lemma FieldReads(s: string, key: string, colon: string, x: Value, after: string)
    requires s != "" && s[0] == '\"' && ReadString(s[1..]) == StrOk(key, colon)
    requires colon != "" && colon[0] == ':' && ReadValue(colon[1..]) == Ok(x, after) && after != ""
    ensures after[0] == '}' ==> ReadFields(s) == Ok(Cons(Field(key, x), Nil), after[1..])
    ensures after[0] == ',' && ReadFields(after[1..]).Ok? ==>
      ReadFields(s) == Ok(Cons(Field(key, x), ReadFields(after[1..]).v), ReadFields(after[1..]).rest)
  {
    SkipSolid(s);
    SkipSolid(colon);
    if !IsSpace(after[0]) { SkipSolid(after); }
  }

  lemma {:induction false} ReadPrintedFields(fields: List<Field>, k: string)
    requires fields.Cons? && PrintableFields(fields)
    ensures ReadFields(FieldsTo(fields, k)) == Ok(fields, k)
    decreases fields
  {
    var f := fields.head;
    var after := if fields.tail.Nil? then "}" + k else "," + FieldsTo(fields.tail, k);
    var colon := ":" + PrintTo(f.val, after);
    var s := FieldsTo(fields, k);
    assert s == "\"" + EscapeTo(f.key, "\"" + colon);
    assert s[1..] == EscapeTo(f.key, "\"" + colon);
    ReadPrintedString(f.key, colon);
    assert colon[1..] == PrintTo(f.val, after);
    ReadPrinted(f.val, after);
    FieldReads(s, f.key, colon, f.val, after);
    if fields.tail.Nil? {
      assert after[1..] == k;
    } else {
      assert after[1..] == FieldsTo(fields.tail, k);
      ReadPrintedFields(fields.tail, k);
    }
  }
}
