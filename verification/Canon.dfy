/** Canonical JSON: keys sorted, no white space, number text kept, a later duplicate key winning. */
module Canon {
  import opened Lists
  import opened Options
  import opened Json

  // ---------------------------------------------------------------- text order

  /** The order Go sorts strings by: first differing character, a proper prefix first. */
  predicate Less(a: string, b: string) {
    b != "" && (a == "" || a[0] < b[0] || (a[0] == b[0] && Less(a[1..], b[1..])))
  }

  lemma {:induction false} LessIrreflexive(a: string)
    ensures !Less(a, a)
  {
    if a != "" { LessIrreflexive(a[1..]); }
  }

  /** The texts agree up to a place, and there the first ends or has the smaller character. */
  predicate SmallerAt(a: string, b: string, n: nat) {
    n <= |a| && n < |b| && a[..n] == b[..n] && (n == |a| || a[n] < b[n])
  }

  lemma {:induction false} SmallerIsLess(a: string, b: string, n: nat)
    requires SmallerAt(a, b, n)
    ensures Less(a, b)
  {
    if n > 0 {
      assert a[..n][0] == a[0] && b[..n][0] == b[0];
      assert a[1..][..n - 1] == a[..n][1..] && b[1..][..n - 1] == b[..n][1..];
      SmallerIsLess(a[1..], b[1..], n - 1);
    }
  }

  lemma {:induction false} LessSomewhere(a: string, b: string) returns (n: nat)
    requires Less(a, b)
    ensures SmallerAt(a, b, n)
  {
    n := 0;
    if a != "" && a[0] == b[0] {
      var m := LessSomewhere(a[1..], b[1..]);
      assert a[..m + 1] == [a[0]] + a[1..][..m] && b[..m + 1] == [b[0]] + b[1..][..m];
      n := m + 1;
    }
  }

  /** Texts are ordered by the first character they differ in; a text that ends there comes first. */
  lemma LessIff(a: string, b: string)
    ensures Less(a, b) <==> exists n: nat :: SmallerAt(a, b, n)
  {
    if Less(a, b) { var n := LessSomewhere(a, b); }
    if n: nat :| SmallerAt(a, b, n) { SmallerIsLess(a, b, n); }
  }

  lemma {:induction false} LessTransitive(a: string, b: string, c: string)
    requires Less(a, b) && Less(b, c)
    ensures Less(a, c)
  {
    if a != "" && a[0] == b[0] && b[0] == c[0] { LessTransitive(a[1..], b[1..], c[1..]); }
  }

  lemma {:induction false} LessTotal(a: string, b: string)
    ensures Less(a, b) || a == b || Less(b, a)
  {
    if a != "" && b != "" && a[0] == b[0] {
      LessTotal(a[1..], b[1..]);
      assert a == [a[0]] + a[1..] && b == [b[0]] + b[1..];
    }
  }

  lemma LessAsymmetric(a: string, b: string)
    requires Less(a, b)
    ensures !Less(b, a) && a != b
  {
    LessIrreflexive(a);
    if Less(b, a) { LessTransitive(a, b, a); }
  }

  // ---------------------------------------------------------------- the decoded map, in key order

  /** The value a decoder finds under a key: the last one in the text. */
  function Lookup(fields: List<Field>, key: string): Option<Value> {
    match fields
    case Nil => None
    case Cons(f, rest) =>
      var r := Lookup(rest, key);
      if r.Some? then r else if f.key == key then Some(f.val) else None
  }

  /** Adds a field in key order unless the key is there already. */
  function PutAbsent(fields: List<Field>, f: Field): List<Field> {
    match fields
    case Nil => Cons(f, Nil)
    case Cons(g, rest) =>
      if f.key == g.key then fields
      else if Less(f.key, g.key) then Cons(f, fields)
      else Cons(g, PutAbsent(rest, f))
  }

  function Norm(v: Value): Value
    decreases v
  {
    match v
    case Arr(items) => Arr(NormItems(items))
    case Obj(fields) => Obj(NormFields(fields))
    case _ => v
  }

  function NormItems(items: List<Value>): List<Value>
    decreases items
  {
    match items
    case Nil => Nil
    case Cons(x, rest) => Cons(Norm(x), NormItems(rest))
  }

  function NormFields(fields: List<Field>): List<Field>
    decreases fields
  {
    match fields
    case Nil => Nil
    case Cons(f, rest) => PutAbsent(NormFields(rest), Field(f.key, Norm(f.val)))
  }

  /** Keys strictly increasing, at every level. */
  predicate Normal(v: Value)
    decreases v
  {
    match v
    case Arr(items) => NormalItems(items)
    case Obj(fields) => NormalFields(fields)
    case _ => true
  }

  predicate NormalItems(items: List<Value>)
    decreases items
  {
    items.Cons? ==> Normal(items.head) && NormalItems(items.tail)
  }

  predicate NormalFields(fields: List<Field>)
    decreases fields
  {
    fields.Cons? ==>
      && Normal(fields.head.val)
      && (fields.tail.Cons? ==> Less(fields.head.key, fields.tail.head.key))
      && NormalFields(fields.tail)
  }

  lemma {:induction false} PutAbsentNormal(fields: List<Field>, f: Field)
    requires NormalFields(fields) && Normal(f.val)
    ensures NormalFields(PutAbsent(fields, f))
    ensures PutAbsent(fields, f).Cons?
    ensures fields.Cons? ==> PutAbsent(fields, f).head.key in {f.key, fields.head.key}
  {
    if fields.Cons? {
      LessTotal(f.key, fields.head.key);
      PutAbsentNormal(fields.tail, f);
    }
  }

  lemma {:induction false} NormIsNormal(v: Value)
    ensures Normal(Norm(v))
    decreases v
  {
    match v
    case Arr(items) => NormItemsNormal(items);
    case Obj(fields) => NormFieldsNormal(fields);
    case _ =>
  }

  lemma {:induction false} NormItemsNormal(items: List<Value>)
    ensures NormalItems(NormItems(items))
    decreases items
  {
    if items.Cons? {
      NormIsNormal(items.head);
      NormItemsNormal(items.tail);
    }
  }

  lemma {:induction false} NormFieldsNormal(fields: List<Field>)
    ensures NormalFields(NormFields(fields))
    decreases fields
  {
    if fields.Cons? {
      NormIsNormal(fields.head.val);
      NormFieldsNormal(fields.tail);
      PutAbsentNormal(NormFields(fields.tail), Field(fields.head.key, Norm(fields.head.val)));
    }
  }

  lemma {:induction false} NormalIsFixed(v: Value)
    requires Normal(v)
    ensures Norm(v) == v
    decreases v
  {
    match v
    case Arr(items) => NormalItemsFixed(items);
    case Obj(fields) => NormalFieldsFixed(fields);
    case _ =>
  }

  lemma {:induction false} NormalItemsFixed(items: List<Value>)
    requires NormalItems(items)
    ensures NormItems(items) == items
    decreases items
  {
    if items.Cons? {
      NormalIsFixed(items.head);
      NormalItemsFixed(items.tail);
    }
  }

  lemma {:induction false} NormalFieldsFixed(fields: List<Field>)
    requires NormalFields(fields)
    ensures NormFields(fields) == fields
    decreases fields
  {
    if fields.Cons? {
      NormalIsFixed(fields.head.val);
      NormalFieldsFixed(fields.tail);
      if fields.tail.Cons? { LessAsymmetric(fields.head.key, fields.tail.head.key); }
    }
  }

  /** Normalizing keeps exactly what a decoder would find under each key. */
  lemma {:induction false} NormKeepsLookup(fields: List<Field>, key: string)
    ensures Lookup(NormFields(fields), key)
         == (var r := Lookup(fields, key); if r.Some? then Some(Norm(r.value)) else None)
  {
    if fields.Cons? {
      NormKeepsLookup(fields.tail, key);
      NormFieldsNormal(fields.tail);
      PutAbsentLookup(NormFields(fields.tail), Field(fields.head.key, Norm(fields.head.val)), key);
    }
  }

  lemma {:induction false} PutAbsentLookup(fields: List<Field>, f: Field, key: string)
    requires NormalFields(fields)
    ensures Lookup(PutAbsent(fields, f), key)
         == (var r := Lookup(fields, key); if r.Some? then r else if key == f.key then Some(f.val) else None)
  {
    if fields.Cons? {
      if f.key == fields.head.key || Less(f.key, fields.head.key) {
        if Less(f.key, fields.head.key) && key == f.key { SmallKeyAbsent(fields, key); }
      } else {
        PutAbsentLookup(fields.tail, f, key);
      }
    }
  }

  lemma {:induction false} SmallKeyAbsent(fields: List<Field>, key: string)
    requires NormalFields(fields) && (fields.Cons? ==> Less(key, fields.head.key))
    ensures Lookup(fields, key).None?
  {
    if fields.Cons? {
      LessAsymmetric(key, fields.head.key);
      if fields.tail.Cons? { LessTransitive(key, fields.head.key, fields.tail.head.key); }
      SmallKeyAbsent(fields.tail, key);
    }
  }

  // ---------------------------------------------------------------- number texts survive

  lemma {:induction false} RunNumberAlone(s: string, st: NumState)
    ensures var r := RunNumber(s, st); RunNumber(r.text, st) == NumRun(r.text, "", r.last)
  {
    if s != "" && NumStep(st, s[0]).Some? {
      RunNumberAlone(s[1..], NumStep(st, s[0]).value);
      var r := RunNumber(s[1..], NumStep(st, s[0]).value);
      assert ([s[0]] + r.text)[1..] == r.text;
    }
  }

  /** Whatever the reader accepts, the printer can print. */
  lemma {:induction false} ReadIsPrintable(s: string)
    requires ReadValue(s).Ok?
    ensures Printable(ReadValue(s).v)
    decreases |s|, 0
  {
    var t := Skip(s);
    if t[0] == '[' {
      var u := Skip(t[1..]);
      if !(u != "" && u[0] == ']') { ReadItemsPrintable(t[1..]); }
    } else if t[0] == '{' {
      var u := Skip(t[1..]);
      if !(u != "" && u[0] == '}') { ReadFieldsPrintable(t[1..]); }
    } else if !(t[0] in "ntf\"") {
      RunNumberAlone(t, Start);
    }
  }

  lemma {:induction false} ReadItemsPrintable(s: string)
    requires ReadItems(s).Ok?
    ensures PrintableItems(ReadItems(s).v)
    decreases |s|, 1
  {
    ReadIsPrintable(s);
    var t := Skip(ReadValue(s).rest);
    if t[0] == ',' { ReadItemsPrintable(t[1..]); }
  }

  lemma {:induction false} ReadFieldsPrintable(s: string)
    requires ReadFields(s).Ok?
    ensures PrintableFields(ReadFields(s).v)
    decreases |s|, 1
  {
    var u := Skip(ReadString(Skip(s)[1..]).rest);
    ReadIsPrintable(u[1..]);
    var w := Skip(ReadValue(u[1..]).rest);
    if w[0] == ',' { ReadFieldsPrintable(w[1..]); }
  }

  lemma {:induction false} PutAbsentPrintable(fields: List<Field>, f: Field)
    requires PrintableFields(fields) && Printable(f.val)
    ensures PrintableFields(PutAbsent(fields, f))
  {
    if fields.Cons? { PutAbsentPrintable(fields.tail, f); }
  }

  lemma {:induction false} NormPrintable(v: Value)
    requires Printable(v)
    ensures Printable(Norm(v))
    decreases v
  {
    match v
    case Arr(items) => NormItemsPrintable(items);
    case Obj(fields) => NormFieldsPrintable(fields);
    case _ =>
  }

  lemma {:induction false} NormItemsPrintable(items: List<Value>)
    requires PrintableItems(items)
    ensures PrintableItems(NormItems(items))
    decreases items
  {
    if items.Cons? {
      NormPrintable(items.head);
      NormItemsPrintable(items.tail);
    }
  }

  lemma {:induction false} NormFieldsPrintable(fields: List<Field>)
    requires PrintableFields(fields)
    ensures PrintableFields(NormFields(fields))
    decreases fields
  {
    if fields.Cons? {
      NormPrintable(fields.head.val);
      NormFieldsPrintable(fields.tail);
      PutAbsentPrintable(NormFields(fields.tail), Field(fields.head.key, Norm(fields.head.val)));
    }
  }

  // ---------------------------------------------------------------- Canonicalize

  /** What may follow the value. The decoder is asked for more elements, and a closing bracket or
      brace makes it answer no, so a text that goes on with one is let through. */
  predicate EndsDocument(rest: string) {
    var t := Skip(rest);
    t != "" ==> t[0] == ']' || t[0] == '}'
  }

  function DecodeOne(s: string): Option<Value> {
    var r := ReadValue(s);
    if r.Ok? && EndsDocument(r.rest) then Some(r.v) else None
  }

  function Canonicalize(s: string): Option<string> {
    var v :- DecodeOne(s);
    Some(Print(Norm(v)))
  }

  lemma PrintedParses(v: Value)
    requires Printable(v)
    ensures ParseDoc(Print(v)) == Some(v) && DecodeOne(Print(v)) == Some(v)
  {
    ReadPrinted(v, "");
  }

  /** Printing is injective on what the reader can produce. */
  lemma PrintInjective(v: Value, w: Value)
    requires Printable(v) && Printable(w) && Print(v) == Print(w)
    ensures v == w
  {
    PrintedParses(v);
    PrintedParses(w);
  }

  lemma CanonicalValue(v: Value)
    requires Printable(v)
    ensures Canonicalize(Print(v)) == Some(Print(Norm(v)))
    ensures Canonicalize(Print(Norm(v))) == Some(Print(Norm(v)))
    ensures ParseDoc(Print(Norm(v))) == Some(Norm(v))
  {
    PrintedParses(v);
    NormPrintable(v);
    PrintedParses(Norm(v));
    NormIsNormal(v);
    NormalIsFixed(Norm(v));
  }

  /** Canonicalization settles: its output is a valid JSON text and its own canonical form. */
  lemma CanonicalizeSettles(s: string)
    requires Canonicalize(s).Some?
    ensures Canonicalize(Canonicalize(s).value) == Canonicalize(s)
    ensures ParseDoc(Canonicalize(s).value).Some?
  {
    ReadIsPrintable(s);
    CanonicalValue(ReadValue(s).v);
  }

  /** Two texts get one canonical form exactly when they denote one JSON document: the same keys
      and values as decoded maps, the same number texts, in any spelling. */
  lemma CanonicalizeDecides(a: string, b: string)
    requires Canonicalize(a).Some? && Canonicalize(b).Some?
    ensures Canonicalize(a) == Canonicalize(b) <==> Norm(DecodeOne(a).value) == Norm(DecodeOne(b).value)
  {
    ReadIsPrintable(a);
    ReadIsPrintable(b);
    NormPrintable(DecodeOne(a).value);
    NormPrintable(DecodeOne(b).value);
    if Canonicalize(a) == Canonicalize(b) {
      PrintInjective(Norm(DecodeOne(a).value), Norm(DecodeOne(b).value));
    }
  }

  /** Canonicalize promises to reject anything but one valid JSON value. It keeps that promise
      exactly when no stray closing bracket or brace follows the value. */
  lemma CanonicalizeStrictIff(s: string)
    ensures Canonicalize(s).Some? && ParseDoc(s).None?
       <==> (var r := ReadValue(s); r.Ok? && Skip(r.rest) != "" && Skip(r.rest)[0] in {']', '}'})
    ensures ParseDoc(s).Some? ==> Canonicalize(s).Some?
  {
  }

  lemma CanonicalizeTakesStrayBracket()
    ensures Canonicalize("{}]") == Some("{}") && ParseDoc("{}]") == None
  {
    var s := "{}]";
    assert s[1..] == "}]" && "}]"[1..] == "]";
    assert ReadValue(s) == Ok(Obj(Nil), "]");
    assert Print(Norm(Obj(Nil))) == "{}";
  }

  // ---------------------------------------------------------------- tool arguments

  /** canonArgs: the canonical form, or the text itself when it has none. */
  function CanonArgs(s: string): string {
    var c := Canonicalize(s);
    if c.Some? then c.value else s
  }

  /** argsRaw: the arguments as a JSON value to embed, the empty object when the text is not valid
      JSON. Embedding prints them in canonical form again. */
  function ArgsValue(s: string): Value {
    var c := ParseDoc(CanonArgs(s));
    if c.Some? then c.value else Obj(Nil)
  }

  lemma CanonArgsSettles(s: string)
    ensures CanonArgs(CanonArgs(s)) == CanonArgs(s)
    ensures ParseDoc(CanonArgs(s)).Some? <==> Canonicalize(s).Some?
  {
    CanonicalizeStrictIff(s);
    if Canonicalize(s).Some? { CanonicalizeSettles(s); }
  }

  /** The embedded value is printable and reads back as the canonical arguments. */
  lemma ArgsValueText(s: string)
    ensures Printable(ArgsValue(s)) && Norm(ArgsValue(s)) == ArgsValue(s)
    ensures Print(ArgsValue(s)) == if Canonicalize(s).Some? then CanonArgs(s) else "{}"
  {
    CanonArgsSettles(s);
    if Canonicalize(s).Some? {
      ReadIsPrintable(s);
      CanonicalValue(ReadValue(s).v);
      ReadIsPrintable(CanonArgs(s));
      NormIsNormal(ReadValue(s).v);
      NormalIsFixed(Norm(ReadValue(s).v));
    }
  }
}
