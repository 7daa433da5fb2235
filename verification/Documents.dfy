/** What a document does not depend on. */
module Documents {
  import opened Lists
  import opened Options
  import opened Json
  import opened Canon

  predicate Spaces(ws: string) {
    forall i | 0 <= i < |ws| :: ws[i] == ' ' || ws[i] == '\t' || ws[i] == '\r' || ws[i] == '\n'
  }

  // A value with white space at every place it may stand, then the text that follows.

  function SpacedTo(v: Value, ws: string, k: string): string
    decreases v
  {
    match v
    case Arr(items) => "[" + (ws + if items.Nil? then "]" + k else SpacedItems(items, ws, k))
    case Obj(fields) => "{" + (ws + if fields.Nil? then "}" + k else SpacedFields(fields, ws, k))
    case _ => PrintTo(v, k)
  }

  function AfterItem(items: List<Value>, ws: string, k: string): string
    requires items.Cons?
    decreases items, 0
  {
    if items.tail.Nil? then "]" + k else "," + (ws + SpacedItems(items.tail, ws, k))
  }

  function SpacedItems(items: List<Value>, ws: string, k: string): string
    requires items.Cons?
    decreases items, 1
  {
    SpacedTo(items.head, ws, ws + AfterItem(items, ws, k))
  }

  function AfterField(fields: List<Field>, ws: string, k: string): string
    requires fields.Cons?
    decreases fields, 0
  {
    if fields.tail.Nil? then "}" + k else "," + (ws + SpacedFields(fields.tail, ws, k))
  }

  function SpacedFields(fields: List<Field>, ws: string, k: string): string
    requires fields.Cons?
    decreases fields, 1
  {
    QuoteTo(fields.head.key, ws + (":" + (ws + SpacedTo(fields.head.val, ws, ws + AfterField(fields, ws, k)))))
  }

  // ---------------------------------------------------------------- white space is skipped

  lemma {:induction false} SkipSpaces(ws: string, s: string)
    requires Spaces(ws)
    ensures Skip(ws + s) == Skip(s)
  {
    if ws == "" {
      assert ws + s == s;
    } else {
      assert (ws + s)[1..] == ws[1..] + s && IsSpace(ws[0]);
      SkipSpaces(ws[1..], s);
    }
  }

  lemma SpacedValue(ws: string, s: string)
    requires Spaces(ws)
    ensures ReadValue(ws + s) == ReadValue(s)
  {
    SkipSpaces(ws, s);
  }

  lemma SpacedList(ws: string, s: string)
    requires Spaces(ws)
    ensures ReadItems(ws + s) == ReadItems(s) && ReadFields(ws + s) == ReadFields(s)
  {
    SkipSpaces(ws, s);
    SpacedValue(ws, s);
  }

  /** Some text that opens with the first character of a value. */
  lemma SpacedSolid(v: Value, ws: string, k: string)
    requires Printable(v)
    ensures var s := SpacedTo(v, ws, k); s != "" && !IsSpace(s[0]) && s[0] != ']' && s[0] != '}'
  {
    if !v.Arr? && !v.Obj? { PrintToSolid(v, k); }
  }

  lemma ItemRead(s: string, x: Value, rest: string, t: string)
    requires ReadValue(s) == Ok(x, rest) && Skip(rest) == t != ""
    ensures t[0] == ']' ==> ReadItems(s) == Ok(Cons(x, Nil), t[1..])
    ensures t[0] == ',' && ReadItems(t[1..]).Ok? ==> ReadItems(s) == Ok(Cons(x, ReadItems(t[1..]).v), ReadItems(t[1..]).rest)
  {
  }

  lemma FieldRead(s: string, key: string, colon: string, u: string, x: Value, rest: string, w: string)
    requires s != "" && s[0] == '\"' && ReadString(s[1..]) == StrOk(key, colon)
    requires Skip(colon) == u != "" && u[0] == ':' && ReadValue(u[1..]) == Ok(x, rest) && Skip(rest) == w != ""
    ensures w[0] == '}' ==> ReadFields(s) == Ok(Cons(Field(key, x), Nil), w[1..])
    ensures w[0] == ',' && ReadFields(w[1..]).Ok? ==>
      ReadFields(s) == Ok(Cons(Field(key, x), ReadFields(w[1..]).v), ReadFields(w[1..]).rest)
  {
    SkipSolid(s);
  }

  /** An opening bracket or brace, then what its contents read as. */
  lemma ArrayOpens(s: string, ws: string, inner: string, items: List<Value>, k: string)
    requires Spaces(ws) && s == "[" + (ws + inner) && inner != "" && !IsSpace(inner[0]) && inner[0] != ']'
    requires ReadItems(inner) == Ok(items, k)
    ensures ReadSolid(s) == Ok(Arr(items), k)
  {
    assert s[1..] == ws + inner;
    SkipSpaces(ws, inner);
    SkipSolid(inner);
    SpacedList(ws, inner);
  }

  lemma ObjectOpens(s: string, ws: string, inner: string, fields: List<Field>, k: string)
    requires Spaces(ws) && s == "{" + (ws + inner) && inner != "" && !IsSpace(inner[0]) && inner[0] != '}'
    requires ReadFields(inner) == Ok(fields, k)
    ensures ReadSolid(s) == Ok(Obj(fields), k)
  {
    assert s[1..] == ws + inner;
    SkipSpaces(ws, inner);
    SkipSolid(inner);
    SpacedList(ws, inner);
  }

  lemma EmptyReads(s: string, ws: string, k: string)
    requires Spaces(ws) && (s == "[" + (ws + ("]" + k)) || s == "{" + (ws + ("}" + k)))
    ensures s[0] == '[' ==> ReadSolid(s) == Ok(Arr(Nil), k)
    ensures s[0] == '{' ==> ReadSolid(s) == Ok(Obj(Nil), k)
  {
    var end := if s[0] == '[' then "]" + k else "}" + k;
    assert s[1..] == ws + end && end[1..] == k;
    SkipSpaces(ws, end);
    SkipSolid(end);
  }

  // ---------------------------------------------------------------- reading back

  lemma {:induction false} ReadSpaced(v: Value, ws: string, k: string)
    requires Printable(v) && Spaces(ws) && (v.Num? ==> StopsNumber(k))
    ensures ReadValue(SpacedTo(v, ws, k)) == Ok(v, k)
    decreases v
  {
    var s := SpacedTo(v, ws, k);
    SpacedSolid(v, ws, k);
    SkipSolid(s);
    match v
    case Arr(items) =>
      if items.Nil? {
        EmptyReads(s, ws, k);
      } else {
        ReadSpacedItems(items, ws, k);
        SpacedSolid(items.head, ws, ws + AfterItem(items, ws, k));
        ArrayOpens(s, ws, SpacedItems(items, ws, k), items, k);
      }
    case Obj(fields) =>
      if fields.Nil? {
        EmptyReads(s, ws, k);
      } else {
        ReadSpacedFields(fields, ws, k);
        ObjectOpens(s, ws, SpacedFields(fields, ws, k), fields, k);
      }
    case _ => ReadPrinted(v, k);
  }

  lemma SpacesStop(ws: string, k: string)
    requires Spaces(ws) && StopsNumber(k)
    ensures StopsNumber(ws + k)
  {
    if ws == "" { assert ws + k == k; }
  }

  lemma {:induction false} ReadSpacedItems(items: List<Value>, ws: string, k: string)
    requires items.Cons? && PrintableItems(items) && Spaces(ws)
    ensures ReadItems(SpacedItems(items, ws, k)) == Ok(items, k)
    decreases items
  {
    var after := AfterItem(items, ws, k);
    SpacesStop(ws, after);
    ReadSpaced(items.head, ws, ws + after);
    SkipSpaces(ws, after);
    SkipSolid(after);
    ItemRead(SpacedItems(items, ws, k), items.head, ws + after, after);
    if items.tail.Nil? {
      assert after[1..] == k;
    } else {
      assert after[1..] == ws + SpacedItems(items.tail, ws, k);
      SpacedList(ws, SpacedItems(items.tail, ws, k));
      ReadSpacedItems(items.tail, ws, k);
    }
  }

  lemma {:induction false} ReadSpacedFields(fields: List<Field>, ws: string, k: string)
    requires fields.Cons? && PrintableFields(fields) && Spaces(ws)
    ensures ReadFields(SpacedFields(fields, ws, k)) == Ok(fields, k)
    decreases fields
  {
    var f, after := fields.head, AfterField(fields, ws, k);
    var val := SpacedTo(f.val, ws, ws + after);
    var u := ":" + (ws + val);
    var s := SpacedFields(fields, ws, k);
    SpacesStop(ws, after);
    ReadSpaced(f.val, ws, ws + after);
    SpacedValue(ws, val);
    assert u[1..] == ws + val;
    SkipSpaces(ws, u);
    SkipSolid(u);
    ReadPrintedString(f.key, ws + u);
    assert s[1..] == EscapeTo(f.key, "\"" + (ws + u));
    SkipSpaces(ws, after);
    SkipSolid(after);
    FieldRead(s, f.key, ws + u, u, f.val, ws + after, after);
    if fields.tail.Nil? {
      assert after[1..] == k;
    } else {
      assert after[1..] == ws + SpacedFields(fields.tail, ws, k);
      SpacedList(ws, SpacedFields(fields.tail, ws, k));
      ReadSpacedFields(fields.tail, ws, k);
    }
  }

  /** White space around and between the tokens of a document changes neither its value nor its canonical
      form. */
  lemma SpacingForgotten(v: Value, ws: string)
    requires Printable(v) && Spaces(ws)
    ensures ParseDoc(ws + SpacedTo(v, ws, ws)) == Some(v)
    ensures Canonicalize(ws + SpacedTo(v, ws, ws)) == Canonicalize(Print(v)) == Some(Print(Norm(v)))
  {
    NothingAdded(ws);
    assert StopsNumber("");
    SpacesStop(ws, "");
    ReadSpaced(v, ws, ws);
    SpacedValue(ws, SpacedTo(v, ws, ws));
    SkipSpaces(ws, "");
    CanonicalValue(v);
  }

  // ---------------------------------------------------------------- the order of keys

  /** The value under a key as a decoder keeps it. */
  function Kept(fields: List<Field>, key: string): Option<Value> {
    var v := Lookup(fields, key);
    if v.Some? then Some(Norm(v.value)) else None
  }

  /** The first key is the least of those that are there. */
  lemma HeadsSame(f: List<Field>, g: List<Field>)
    requires NormalFields(f) && NormalFields(g) && f.Cons? && g.Cons?
    requires forall key :: Lookup(f, key) == Lookup(g, key)
    ensures f.head == g.head
  {
    var a, b := f.head.key, g.head.key;
    LessTotal(a, b);
    assert Lookup(f, a).Some? && Lookup(g, b).Some?;
    if Less(a, b) { SmallKeyAbsent(g, a); }
    if Less(b, a) { SmallKeyAbsent(f, b); }
    FirstFound(f);
    FirstFound(g);
  }

  lemma FirstFound(f: List<Field>)
    requires NormalFields(f) && f.Cons?
    ensures Lookup(f, f.head.key) == Some(f.head.val) && Lookup(f.tail, f.head.key) == None
  {
    SmallKeyAbsent(f.tail, f.head.key);
  }

  lemma {:induction false} SameLookupsSame(f: List<Field>, g: List<Field>)
    requires NormalFields(f) && NormalFields(g) && forall key :: Lookup(f, key) == Lookup(g, key)
    ensures f == g
    decreases f
  {
    if f.Cons? { FirstFound(f); }
    if g.Cons? { FirstFound(g); }
    if f.Cons? && g.Cons? {
      HeadsSame(f, g);
      forall key ensures Lookup(f.tail, key) == Lookup(g.tail, key) {
        assert Lookup(f, key) == Lookup(g, key);
      }
      SameLookupsSame(f.tail, g.tail);
    }
  }

  /** Two objects have one canonical form exactly when a decoder finds the same under every key: neither the
      order of keys nor what a later field of a key replaces makes a difference. */
  lemma ObjectsAlikeIff(f: List<Field>, g: List<Field>)
    requires PrintableFields(f) && PrintableFields(g)
    ensures Canonicalize(Print(Obj(f))) == Canonicalize(Print(Obj(g))) <==> forall key :: Kept(f, key) == Kept(g, key)
  {
    CanonicalValue(Obj(f));
    CanonicalValue(Obj(g));
    NormIsNormal(Obj(f));
    NormIsNormal(Obj(g));
    NormPrintable(Obj(f));
    NormPrintable(Obj(g));
    var x, y := NormFields(f), NormFields(g);
    forall key ensures Lookup(x, key) == Kept(f, key) && Lookup(y, key) == Kept(g, key) {
      NormKeepsLookup(f, key);
      NormKeepsLookup(g, key);
    }
    if forall key :: Kept(f, key) == Kept(g, key) {
      forall key ensures Lookup(x, key) == Lookup(y, key) { assert Kept(f, key) == Kept(g, key); }
      SameLookupsSame(x, y);
    }
    if Canonicalize(Print(Obj(f))) == Canonicalize(Print(Obj(g))) { PrintInjective(Norm(Obj(f)), Norm(Obj(g))); }
  }
}
