/** Volatile paths, dropped before a body is digested. */
module Paths {
  import opened Lists
  import opened Options
  import opened Json
  import opened Canon
  import opened Records

  /** The dotted path as its segments; an empty path still has one, empty segment. */
  function Segments(path: string): (r: seq<string>)
    ensures |r| > 0
  {
    if path == "" then [""]
    else
      var r := Segments(path[1..]);
      if path[0] == '.' then [""] + r else [[path[0]] + r[0]] + r[1..]
  }

  /** A decimal integer with an optional sign. Values beyond 64 bits are errors in the code; as
      array indices they are out of range all the same. */
  function Atoi(s: string): Option<int> {
    if s == "" then None
    else if s[0] == '-' || s[0] == '+' then
      if |s| == 1 then None
      else
        var n :- DigitsValue(s[1..]);
        Some(if s[0] == '-' then -n else n)
    else
      var n :- DigitsValue(s);
      Some(n)
  }

  predicate AllDigits(s: string) { forall i | 0 <= i < |s| :: IsDigit(s[i]) }

  lemma {:induction false} DigitsRead(s: string)
    ensures DigitsValue(s).Some? <==> AllDigits(s)
    ensures AllDigits(s) ==> DigitsValue("0" + s) == DigitsValue(s)
  {
    if s != "" {
      var n := |s| - 1;
      DigitsRead(s[..n]);
      assert ("0" + s)[..n + 1] == "0" + s[..n];
      if AllDigits(s) { assert AllDigits(s[..n]); }
      if AllDigits(s[..n]) && IsDigit(s[n]) { assert forall i | 0 <= i < n :: s[..n][i] == s[i]; }
    } else {
      assert ("0" + s)[..0] == "";
    }
  }

  /** An index is read from exactly the texts that are digits after at most one sign; the decimal text of a
      number reads as that number, with a plus sign or zeros before it or not. */
  lemma AtoiReads(s: string, n: int)
    requires n >= 0
    ensures Atoi(s).Some? <==> (s != "" && AllDigits(s)) || (|s| > 1 && (s[0] == '-' || s[0] == '+') && AllDigits(s[1..]))
    ensures Atoi(NatText(n)) == Some(n) == Atoi("+" + NatText(n))
    ensures Atoi("-" + NatText(n)) == Some(-n)
    ensures s != "" && AllDigits(s) ==> Atoi("0" + s) == Atoi(s)
  {
    DigitsRead(s);
    if s != "" {
      DigitsRead(s[1..]);
      assert !IsDigit('-') && !IsDigit('+');
      if AllDigits(s) { assert IsDigit(s[0]); }
    }
    NatTextValue(n);
    NatTextDigits(n);
    assert IsDigit(NatText(n)[0]);
    assert ("+" + NatText(n))[1..] == NatText(n) && ("-" + NatText(n))[1..] == NatText(n);
  }

  function Length<T>(l: List<T>): nat {
    match l case Nil => 0 case Cons(_, rest) => 1 + Length(rest)
  }

  /** The place a segment names in an array. */
  function IndexIn(items: List<Value>, seg: string): Option<nat> {
    var i :- Atoi(seg);
    if 0 <= i < Length(items) then Some(i) else None
  }

  // ---------------------------------------------------------------- dropping

  /** Drops what the path leads to: an object loses the key, an array element becomes null, and a
      path that leads nowhere changes nothing. */
  function Drop(v: Value, segs: seq<string>): Value
    decreases |segs|, 0, v
  {
    if segs == [] then v
    else
      match v
      case Obj(fields) => Obj(DropFields(fields, segs[0], segs[1..]))
      case Arr(items) =>
        var i := IndexIn(items, segs[0]);
        if i.None? then v else Arr(DropItem(items, i.value, segs[1..]))
      case _ => v
  }

  function DropFields(fields: List<Field>, key: string, rest: seq<string>): List<Field>
    decreases |rest|, 1, fields
  {
    match fields
    case Nil => Nil
    case Cons(f, more) =>
      if f.key != key then Cons(f, DropFields(more, key, rest))
      else if rest == [] then DropFields(more, key, rest)
      else Cons(Field(f.key, Drop(f.val, rest)), DropFields(more, key, rest))
  }

  function DropItem(items: List<Value>, i: nat, rest: seq<string>): List<Value>
    decreases |rest|, 1, items
  {
    match items
    case Nil => Nil
    case Cons(x, more) =>
      if i > 0 then Cons(x, DropItem(more, i - 1, rest))
      else Cons(if rest == [] then Null else Drop(x, rest), more)
  }

  /** One dropped path of a match configuration; the empty path is skipped. */
  function DropPath(v: Value, path: string): Value {
    if path == "" then v else Drop(v, Segments(path))
  }

  function DropAll(v: Value, paths: seq<string>): Value
    decreases |paths|
  {
    if paths == [] then v else DropAll(DropPath(v, paths[0]), paths[1..])
  }

  lemma {:induction false} DropItemLength(items: List<Value>, i: nat, rest: seq<string>)
    ensures Length(DropItem(items, i, rest)) == Length(items)
    decreases items
  {
    if items.Cons? && i > 0 { DropItemLength(items.tail, i - 1, rest); }
  }

  // ---------------------------------------------------------------- dropping is idempotent and commutes

  lemma {:induction false} DropTwice(v: Value, p: seq<string>)
    ensures Drop(Drop(v, p), p) == Drop(v, p)
    decreases |p|, 0, v
  {
    if p != [] {
      match v
      case Obj(fields) => DropFieldsTwice(fields, p[0], p[1..]);
      case Arr(items) =>
        var i := IndexIn(items, p[0]);
        if i.Some? {
          DropItemLength(items, i.value, p[1..]);
          DropItemTwice(items, i.value, p[1..]);
        }
      case _ =>
    }
  }

  lemma {:induction false} DropFieldsTwice(fields: List<Field>, key: string, rest: seq<string>)
    ensures DropFields(DropFields(fields, key, rest), key, rest) == DropFields(fields, key, rest)
    decreases |rest|, 1, fields
  {
    if fields.Cons? {
      DropFieldsTwice(fields.tail, key, rest);
      if fields.head.key == key { DropTwice(fields.head.val, rest); }
    }
  }

  lemma {:induction false} DropItemTwice(items: List<Value>, i: nat, rest: seq<string>)
    ensures DropItem(DropItem(items, i, rest), i, rest) == DropItem(items, i, rest)
    decreases |rest|, 1, items
  {
    if items.Cons? {
      if i > 0 { DropItemTwice(items.tail, i - 1, rest); } else { DropTwice(items.head, rest); }
    }
  }

  /** Two paths can be dropped in either order, overlapping ones and array elements included. */
  lemma {:induction false} DropsCommute(v: Value, p: seq<string>, q: seq<string>)
    ensures Drop(Drop(v, p), q) == Drop(Drop(v, q), p)
    decreases |p|, 0, v
  {
    if p != [] && q != [] {
      match v
      case Obj(fields) => DropFieldsCommute(fields, p[0], p[1..], q[0], q[1..]);
      case Arr(items) =>
        var i, j := IndexIn(items, p[0]), IndexIn(items, q[0]);
        if i.Some? { DropItemLength(items, i.value, p[1..]); }
        if j.Some? { DropItemLength(items, j.value, q[1..]); }
        if i.Some? && j.Some? { DropItemsCommute(items, i.value, p[1..], j.value, q[1..]); }
      case _ =>
    }
  }

  lemma {:induction false} DropFieldsCommute(fields: List<Field>, k: string, r: seq<string>, k': string, r': seq<string>)
    ensures DropFields(DropFields(fields, k, r), k', r') == DropFields(DropFields(fields, k', r'), k, r)
    decreases |r|, 1, fields
  {
    if fields.Cons? {
      DropFieldsCommute(fields.tail, k, r, k', r');
      if fields.head.key == k == k' { DropsCommute(fields.head.val, r, r'); }
    }
  }

  lemma {:induction false} DropItemsCommute(items: List<Value>, i: nat, r: seq<string>, i': nat, r': seq<string>)
    ensures DropItem(DropItem(items, i, r), i', r') == DropItem(DropItem(items, i', r'), i, r)
    decreases |r|, 1, items
  {
    if items.Cons? {
      if i > 0 && i' > 0 { DropItemsCommute(items.tail, i - 1, r, i' - 1, r'); }
      if i == i' == 0 { DropsCommute(items.head, r, r'); }
    }
  }

  lemma PathsCommute(v: Value, p: string, q: string)
    ensures DropPath(DropPath(v, p), q) == DropPath(DropPath(v, q), p)
    ensures DropPath(DropPath(v, p), p) == DropPath(v, p)
  {
    DropsCommute(v, Segments(p), Segments(q));
    DropTwice(v, Segments(p));
  }

  lemma {:induction false} PathLast(v: Value, p: string, paths: seq<string>)
    ensures DropAll(DropPath(v, p), paths) == DropPath(DropAll(v, paths), p)
    decreases |paths|
  {
    if paths != [] {
      PathsCommute(v, p, paths[0]);
      PathLast(DropPath(v, paths[0]), p, paths[1..]);
    }
  }

  /** Dropping one of the paths beforehand makes no difference. */
  lemma {:induction false} PathAbsorbed(v: Value, p: string, paths: seq<string>)
    requires p in paths
    ensures DropAll(DropPath(v, p), paths) == DropAll(v, paths)
    decreases |paths|
  {
    PathsCommute(v, p, paths[0]);
    if p != paths[0] { PathAbsorbed(DropPath(v, paths[0]), p, paths[1..]); }
  }

  lemma {:induction false} PathsAbsorbed(v: Value, some: seq<string>, paths: seq<string>)
    requires forall p <- some :: p in paths
    ensures DropAll(DropAll(v, some), paths) == DropAll(v, paths)
    decreases |some|
  {
    if some != [] {
      PathsAbsorbed(DropPath(v, some[0]), some[1..], paths);
      PathAbsorbed(v, some[0], paths);
    }
  }

  lemma {:induction false} AllCommute(v: Value, ps: seq<string>, qs: seq<string>)
    ensures DropAll(DropAll(v, ps), qs) == DropAll(DropAll(v, qs), ps)
    decreases |ps|
  {
    if ps != [] {
      AllCommute(DropPath(v, ps[0]), ps[1..], qs);
      PathLast(v, ps[0], qs);
    }
  }

  /** What is left depends only on which paths are dropped, not on their order or repetition. */
  lemma OnlyTheSetMatters(v: Value, ps: seq<string>, qs: seq<string>)
    requires forall p :: p in ps <==> p in qs
    ensures DropAll(v, ps) == DropAll(v, qs)
  {
    PathsAbsorbed(v, ps, qs);
    PathsAbsorbed(v, qs, ps);
    AllCommute(v, ps, qs);
  }

  // ---------------------------------------------------------------- dropping and decoding

  lemma {:induction false} DropPut(fields: List<Field>, f: Field, key: string, rest: seq<string>)
    requires NormalFields(fields)
    ensures DropFields(PutAbsent(fields, f), key, rest) ==
      if f.key != key then PutAbsent(DropFields(fields, key, rest), f)
      else if rest == [] then DropFields(fields, key, rest)
      else PutAbsent(DropFields(fields, key, rest), Field(key, Drop(f.val, rest)))
    decreases fields
  {
    if fields.Cons? {
      DropPut(fields.tail, f, key, rest);
      LessIrreflexive(f.key);
      if Less(f.key, fields.head.key) { LeastStays(fields, f.key, key, rest); }
    }
  }

  /** Dropping leaves later keys later. */
  lemma {:induction false} LeastStays(fields: List<Field>, least: string, key: string, rest: seq<string>)
    requires NormalFields(fields) && (fields.Cons? ==> Less(least, fields.head.key))
    ensures var d := DropFields(fields, key, rest); d.Cons? ==> Less(least, d.head.key)
    decreases fields
  {
    if fields.Cons? && fields.tail.Cons? {
      LessTransitive(least, fields.head.key, fields.tail.head.key);
      LeastStays(fields.tail, least, key, rest);
    }
  }

  /** A path can be dropped from the text's value or from the decoded map. */
  lemma {:induction false} DropNorm(v: Value, p: seq<string>)
    ensures Norm(Drop(v, p)) == Drop(Norm(v), p)
    decreases |p|, 0, v
  {
    if p != [] {
      match v
      case Obj(fields) => DropNormFields(fields, p[0], p[1..]);
      case Arr(items) =>
        NormLength(items);
        var i := IndexIn(items, p[0]);
        if i.Some? { DropNormItem(items, i.value, p[1..]); }
      case _ =>
    }
  }

  lemma {:induction false} NormLength(items: List<Value>)
    ensures Length(NormItems(items)) == Length(items)
  {
    if items.Cons? { NormLength(items.tail); }
  }

  lemma {:induction false} DropNormFields(fields: List<Field>, key: string, rest: seq<string>)
    ensures NormFields(DropFields(fields, key, rest)) == DropFields(NormFields(fields), key, rest)
    decreases |rest|, 1, fields
  {
    if fields.Cons? {
      var f := fields.head;
      DropNormFields(fields.tail, key, rest);
      NormFieldsNormal(fields.tail);
      DropPut(NormFields(fields.tail), Field(f.key, Norm(f.val)), key, rest);
      if f.key == key { DropNorm(f.val, rest); }
    }
  }

  lemma {:induction false} DropNormItem(items: List<Value>, i: nat, rest: seq<string>)
    ensures NormItems(DropItem(items, i, rest)) == DropItem(NormItems(items), i, rest)
    decreases |rest|, 1, items
  {
    if items.Cons? {
      if i > 0 { DropNormItem(items.tail, i - 1, rest); } else { DropNorm(items.head, rest); }
    }
  }

  lemma {:induction false} DropPrintable(v: Value, p: seq<string>)
    requires Printable(v)
    ensures Printable(Drop(v, p))
    decreases |p|, 0, v
  {
    if p != [] {
      match v
      case Obj(fields) => DropFieldsPrintable(fields, p[0], p[1..]);
      case Arr(items) =>
        var i := IndexIn(items, p[0]);
        if i.Some? { DropItemPrintable(items, i.value, p[1..]); }
      case _ =>
    }
  }

  lemma {:induction false} DropFieldsPrintable(fields: List<Field>, key: string, rest: seq<string>)
    requires PrintableFields(fields)
    ensures PrintableFields(DropFields(fields, key, rest))
    decreases |rest|, 1, fields
  {
    if fields.Cons? {
      DropFieldsPrintable(fields.tail, key, rest);
      if fields.head.key == key { DropPrintable(fields.head.val, rest); }
    }
  }

  lemma {:induction false} DropItemPrintable(items: List<Value>, i: nat, rest: seq<string>)
    requires PrintableItems(items)
    ensures PrintableItems(DropItem(items, i, rest))
    decreases |rest|, 1, items
  {
    if items.Cons? {
      if i > 0 { DropItemPrintable(items.tail, i - 1, rest); } else { DropPrintable(items.head, rest); }
    }
  }

  lemma {:induction false} DropAllPrintable(v: Value, paths: seq<string>)
    requires Printable(v)
    ensures Printable(DropAll(v, paths))
    decreases |paths|
  {
    if paths != [] {
      DropPrintable(v, Segments(paths[0]));
      DropAllPrintable(DropPath(v, paths[0]), paths[1..]);
    }
  }
}
