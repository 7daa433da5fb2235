/** Places in a document, and writing there. */
module Places {
  import opened Lists
  import opened Options
  import opened Json
  import opened Canon
  import opened Paths

  /** A place as the text has it: at each level the number of the field or element. */
  type Place = seq<nat>

  // ---------------------------------------------------------------- one level

  function FieldAt(fields: List<Field>, i: nat): Option<Field> {
    match fields
    case Nil => None
    case Cons(f, rest) => if i == 0 then Some(f) else FieldAt(rest, i - 1)
  }

  function ItemAt(items: List<Value>, i: nat): Option<Value> {
    match items
    case Nil => None
    case Cons(x, rest) => if i == 0 then Some(x) else ItemAt(rest, i - 1)
  }

  function Child(v: Value, i: nat): Option<Value> {
    match v
    case Obj(fields) => var f :- FieldAt(fields, i); Some(f.val)
    case Arr(items) => ItemAt(items, i)
    case _ => None
  }

  function PutField(fields: List<Field>, i: nat, x: Value): List<Field> {
    match fields
    case Nil => Nil
    case Cons(f, rest) => if i == 0 then Cons(Field(f.key, x), rest) else Cons(f, PutField(rest, i - 1, x))
  }

  function PutItem(items: List<Value>, i: nat, x: Value): List<Value> {
    match items
    case Nil => Nil
    case Cons(y, rest) => if i == 0 then Cons(x, rest) else Cons(y, PutItem(rest, i - 1, x))
  }

  function PutChild(v: Value, i: nat, x: Value): Value {
    match v
    case Obj(fields) => Obj(PutField(fields, i, x))
    case Arr(items) => Arr(PutItem(items, i, x))
    case _ => v
  }

  /** How a decoder names a place at one level: by the key, or by the index. */
  datatype Step = Member(key: string) | Element(index: nat)

  function StepOf(v: Value, i: nat): Step
    requires Child(v, i).Some?
  {
    if v.Obj? then Member(FieldAt(v.fields, i).value.key) else Element(i)
  }

  /** The key of a field stands again after it. */
  predicate KeyAgain(fields: List<Field>, i: nat) {
    fields.Cons? && if i == 0 then Lookup(fields.tail, fields.head.key).Some? else KeyAgain(fields.tail, i - 1)
  }

  predicate HiddenChild(v: Value, i: nat) {
    v.Obj? && KeyAgain(v.fields, i)
  }

  /** What a decoder finds: the last of repeated keys. */
  function Find(v: Value, s: Step): Option<Value> {
    match s
    case Member(k) => if v.Obj? then Lookup(v.fields, k) else None
    case Element(i) => if v.Arr? then ItemAt(v.items, i) else None
  }

  /** A segment of a volatile path names a step. */
  predicate Names(seg: string, s: Step) {
    match s
    case Member(k) => seg == k
    case Element(i) => Atoi(seg) == Some(i)
  }

  // ---------------------------------------------------------------- reading and writing

  function ReadAt(v: Value, p: Place): Option<Value>
    decreases |p|
  {
    if p == [] then Some(v)
    else
      var c :- Child(v, p[0]);
      ReadAt(c, p[1..])
  }

  function Write(v: Value, p: Place, x: Value): Value
    decreases |p|
  {
    if p == [] then x
    else if Child(v, p[0]).None? then v
    else PutChild(v, p[0], Write(Child(v, p[0]).value, p[1..], x))
  }

  function WriteAll(v: Value, ps: seq<Place>, x: Value): Value
    decreases |ps|
  {
    if ps == [] then v else WriteAll(Write(v, ps[0], x), ps[1..], x)
  }

  function Steps(v: Value, p: Place): seq<Step>
    decreases |p|
  {
    if p == [] || Child(v, p[0]).None? then [] else [StepOf(v, p[0])] + Steps(Child(v, p[0]).value, p[1..])
  }

  /** Somewhere on the way a later field of the same key hides the one the place is in. */
  predicate Hidden(v: Value, p: Place)
    decreases |p|
  {
    && p != [] && Child(v, p[0]).Some?
    && (HiddenChild(v, p[0]) || Hidden(Child(v, p[0]).value, p[1..]))
  }

  function FindAll(v: Value, steps: seq<Step>): Option<Value>
    decreases |steps|
  {
    if steps == [] then Some(v)
    else
      var c :- Find(v, steps[0]);
      FindAll(c, steps[1..])
  }

  /** Neither place lies at or under the other. */
  predicate Apart(p: Place, q: Place) {
    !(p <= q) && !(q <= p)
  }

  predicate AllApart(ps: seq<Place>) {
    forall i, j | 0 <= i < j < |ps| :: Apart(ps[i], ps[j])
  }

  predicate AllIn(v: Value, ps: seq<Place>) {
    forall p <- ps :: p != [] && ReadAt(v, p).Some?
  }

  // ---------------------------------------------------------------- what volatile paths cover

  /** A volatile path leads to the place, or to something it lies under. */
  predicate Covers(segs: seq<string>, steps: seq<Step>) {
    segs == [] || (steps != [] && Names(segs[0], steps[0]) && Covers(segs[1..], steps[1..]))
  }

  predicate Dropped(v: Value, p: Place, paths: seq<string>) {
    exists path <- paths :: path != "" && Covers(Segments(path), Steps(v, p))
  }

  // ---------------------------------------------------------------- writing leaves the rest alone

  lemma {:induction false} PutFieldAt(fields: List<Field>, i: nat, x: Value, j: nat)
    requires FieldAt(fields, i).Some?
    ensures FieldAt(PutField(fields, i, x), j)
         == if j == i then Some(Field(FieldAt(fields, i).value.key, x)) else FieldAt(fields, j)
    ensures KeyAgain(PutField(fields, i, x), j) == KeyAgain(fields, j)
    ensures PutField(fields, i, FieldAt(fields, i).value.val) == fields
  {
    PutFieldKeys(fields, i, x);
    if i > 0 && j > 0 {
      PutFieldAt(fields.tail, i - 1, x, j - 1);
      PutFieldKeys(fields.tail, i - 1, x);
    } else if i > 0 {
      PutFieldAt(fields.tail, i - 1, x, j);
      PutFieldKeys(fields.tail, i - 1, x);
    }
  }

  lemma {:induction false} PutFieldKeys(fields: List<Field>, i: nat, x: Value)
    ensures forall key :: Lookup(PutField(fields, i, x), key).Some? <==> Lookup(fields, key).Some?
  {
    if fields.Cons? && i > 0 { PutFieldKeys(fields.tail, i - 1, x); }
  }

  lemma {:induction false} PutItemAt(items: List<Value>, i: nat, x: Value, j: nat)
    requires ItemAt(items, i).Some?
    ensures ItemAt(PutItem(items, i, x), j) == if j == i then Some(x) else ItemAt(items, j)
    ensures PutItem(items, i, ItemAt(items, i).value) == items
  {
    if i > 0 { PutItemAt(items.tail, i - 1, x, if j > 0 then j - 1 else j); }
  }

  lemma PutChildAt(v: Value, i: nat, x: Value, j: nat)
    requires Child(v, i).Some?
    ensures Child(PutChild(v, i, x), j) == if j == i then Some(x) else Child(v, j)
    ensures Child(v, j).Some? ==> StepOf(PutChild(v, i, x), j) == StepOf(v, j)
    ensures HiddenChild(PutChild(v, i, x), j) == HiddenChild(v, j)
    ensures PutChild(v, i, Child(v, i).value) == v
  {
    if v.Obj? { PutFieldAt(v.fields, i, x, j); } else { PutItemAt(v.items, i, x, j); }
  }

  lemma {:induction false} WriteReads(v: Value, p: Place, x: Value)
    requires ReadAt(v, p).Some?
    ensures ReadAt(Write(v, p, x), p) == Some(x) && Write(v, p, ReadAt(v, p).value) == v
    decreases |p|
  {
    if p != [] {
      var c := Child(v, p[0]).value;
      WriteReads(c, p[1..], x);
      PutChildAt(v, p[0], Write(c, p[1..], x), p[0]);
    }
  }

  /** A place that is not under the written one is named and hidden as before; one apart from it reads as
      before. */
  lemma {:induction false} WriteLeaves(v: Value, p: Place, x: Value, q: Place)
    requires ReadAt(v, p).Some? && !(p < q)
    ensures Steps(Write(v, p, x), q) == Steps(v, q) && Hidden(Write(v, p, x), q) == Hidden(v, q)
    ensures Apart(p, q) ==> ReadAt(Write(v, p, x), q) == ReadAt(v, q)
    decreases |p|
  {
    if p == [] {
      assert q == [] || p < q;
    } else if q != [] {
      var c := Child(v, p[0]).value;
      PutChildAt(v, p[0], Write(c, p[1..], x), q[0]);
      if p[0] == q[0] {
        Prefixes(p, q);
        WriteLeaves(c, p[1..], x, q[1..]);
      }
    }
  }

  lemma Prefixes(p: Place, q: Place)
    requires p != [] && q != [] && p[0] == q[0]
    ensures (p[1..] <= q[1..] <==> p <= q) && (q[1..] <= p[1..] <==> q <= p)
    ensures p[1..] < q[1..] <==> p < q
  {
    assert p == [p[0]] + p[1..] && q == [q[0]] + q[1..];
  }

  lemma {:induction false} WriteAllLeaves(v: Value, ps: seq<Place>, x: Value, q: Place)
    requires AllIn(v, ps) && AllApart(ps) && forall p <- ps :: Apart(p, q)
    ensures var w := WriteAll(v, ps, x);
      Steps(w, q) == Steps(v, q) && Hidden(w, q) == Hidden(v, q) && ReadAt(w, q) == ReadAt(v, q)
    decreases |ps|
  {
    if ps != [] {
      OneWritten(v, ps, x);
      WriteLeaves(v, ps[0], x, q);
      WriteAllLeaves(Write(v, ps[0], x), ps[1..], x, q);
    }
  }

  /** After the first write the others are still to be made, at places that read and are named as before. */
  lemma OneWritten(v: Value, ps: seq<Place>, x: Value)
    requires AllIn(v, ps) && AllApart(ps) && ps != []
    ensures var w := Write(v, ps[0], x);
      && AllIn(w, ps[1..]) && AllApart(ps[1..])
      && forall q <- ps[1..] ::
        Apart(ps[0], q) && ReadAt(w, q) == ReadAt(v, q) && Steps(w, q) == Steps(v, q) && Hidden(w, q) == Hidden(v, q)
  {
    assert ps[0] in ps;
    forall q <- ps[1..]
      ensures var w := Write(v, ps[0], x);
        && q != [] && ReadAt(v, q).Some? && Apart(ps[0], q)
        && ReadAt(w, q) == ReadAt(v, q) && Steps(w, q) == Steps(v, q) && Hidden(w, q) == Hidden(v, q)
    {
      var j :| 0 <= j < |ps| - 1 && ps[1..][j] == q;
      assert ps[j + 1] == q && q in ps;
      WriteLeaves(v, ps[0], x, q);
    }
  }

  /** Each written place holds what was written, under the names it had. */
  lemma {:induction false} WrittenAt(v: Value, ps: seq<Place>, x: Value, p: Place)
    requires AllIn(v, ps) && AllApart(ps) && p in ps
    ensures var w := WriteAll(v, ps, x); ReadAt(w, p) == Some(x) && Steps(w, p) == Steps(v, p) && Hidden(w, p) == Hidden(v, p)
    decreases |ps|
  {
    OneWritten(v, ps, x);
    var w := Write(v, ps[0], x);
    if p == ps[0] {
      WriteReads(v, p, x);
      WriteLeaves(v, p, x, p);
      forall q <- ps[1..] ensures Apart(q, p) { assert Apart(ps[0], q); }
      WriteAllLeaves(w, ps[1..], x, p);
    } else {
      WrittenAt(w, ps[1..], x, p);
    }
  }

  // ---------------------------------------------------------------- writing and decoding

  lemma {:induction false} PutPresent(fields: List<Field>, f: Field)
    requires NormalFields(fields) && Lookup(fields, f.key).Some?
    ensures PutAbsent(fields, f) == fields
  {
    if f.key != fields.head.key {
      if Less(f.key, fields.head.key) { SmallKeyAbsent(fields, f.key); }
      if Lookup(fields.tail, f.key).Some? { PutPresent(fields.tail, f); }
    }
  }

  /** A field with a later one of its key does not show in the decoded map. */
  lemma HeadHidden(tail: List<Field>, key: string, v: Value, w: Value)
    requires Lookup(tail, key).Some?
    ensures PutAbsent(NormFields(tail), Field(key, v)) == PutAbsent(NormFields(tail), Field(key, w))
  {
    NormKeepsLookup(tail, key);
    NormFieldsNormal(tail);
    PutPresent(NormFields(tail), Field(key, v));
    PutPresent(NormFields(tail), Field(key, w));
  }

  lemma {:induction false} ShownField(fields: List<Field>, i: nat)
    requires FieldAt(fields, i).Some?
    ensures Lookup(fields, FieldAt(fields, i).value.key).Some?
    ensures !KeyAgain(fields, i) ==> Lookup(fields, FieldAt(fields, i).value.key) == Some(FieldAt(fields, i).value.val)
  {
    if i > 0 { ShownField(fields.tail, i - 1); }
  }

  lemma {:induction false} FieldUnmoved(fields: List<Field>, i: nat, x: Value)
    requires FieldAt(fields, i).Some? && (KeyAgain(fields, i) || Norm(x) == Norm(FieldAt(fields, i).value.val))
    ensures NormFields(PutField(fields, i, x)) == NormFields(fields)
  {
    if i > 0 { FieldUnmoved(fields.tail, i - 1, x); }
    else if KeyAgain(fields, i) { HeadHidden(fields.tail, fields.head.key, Norm(fields.head.val), Norm(x)); }
  }

  lemma FieldMovesIff(fields: List<Field>, i: nat, x: Value)
    requires FieldAt(fields, i).Some?
    ensures NormFields(PutField(fields, i, x)) == NormFields(fields)
      <==> KeyAgain(fields, i) || Norm(x) == Norm(FieldAt(fields, i).value.val)
  {
    if KeyAgain(fields, i) || Norm(x) == Norm(FieldAt(fields, i).value.val) {
      FieldUnmoved(fields, i, x);
    } else {
      var key := FieldAt(fields, i).value.key;
      PutFieldAt(fields, i, x, i);
      ShownField(fields, i);
      ShownField(PutField(fields, i, x), i);
      NormKeepsLookup(fields, key);
      NormKeepsLookup(PutField(fields, i, x), key);
    }
  }

  lemma {:induction false} ItemMovesIff(items: List<Value>, i: nat, x: Value)
    requires ItemAt(items, i).Some?
    ensures NormItems(PutItem(items, i, x)) == NormItems(items) <==> Norm(x) == Norm(ItemAt(items, i).value)
  {
    if i > 0 { ItemMovesIff(items.tail, i - 1, x); }
  }

  /** Overwriting leaves the decoded document as it was exactly when a later field hides the place, or the
      same value stands there already. */
  lemma {:induction false} OverwriteShowsIff(v: Value, p: Place, x: Value)
    requires ReadAt(v, p).Some?
    ensures Norm(Write(v, p, x)) == Norm(v) <==> Hidden(v, p) || Norm(x) == Norm(ReadAt(v, p).value)
    decreases |p|
  {
    if p != [] {
      var c := Child(v, p[0]).value;
      OverwriteShowsIff(c, p[1..], x);
      var y := Write(c, p[1..], x);
      if v.Obj? { FieldMovesIff(v.fields, p[0], y); } else { ItemMovesIff(v.items, p[0], y); }
    }
  }

  // ---------------------------------------------------------------- writing and dropping

  lemma {:induction false} FieldForgotten(fields: List<Field>, i: nat, x: Value, rest: seq<string>)
    requires FieldAt(fields, i).Some? && (rest == [] || Drop(x, rest) == Drop(FieldAt(fields, i).value.val, rest))
    ensures var key := FieldAt(fields, i).value.key;
      DropFields(PutField(fields, i, x), key, rest) == DropFields(fields, key, rest)
  {
    if i > 0 { FieldForgotten(fields.tail, i - 1, x, rest); }
  }

  lemma {:induction false} ItemForgotten(items: List<Value>, i: nat, x: Value, rest: seq<string>)
    requires ItemAt(items, i).Some? && (rest == [] || Drop(x, rest) == Drop(ItemAt(items, i).value, rest))
    ensures DropItem(PutItem(items, i, x), i, rest) == DropItem(items, i, rest)
    ensures i < Length(items) == Length(PutItem(items, i, x))
  {
    if i > 0 { ItemForgotten(items.tail, i - 1, x, rest); }
  }

  /** Once a path is dropped, what stands at or under the place it leads to is forgotten. */
  lemma {:induction false} DropForgets(v: Value, p: Place, x: Value, segs: seq<string>)
    requires segs != [] && ReadAt(v, p).Some? && Covers(segs, Steps(v, p))
    ensures Drop(Write(v, p, x), segs) == Drop(v, segs)
    decreases |p|
  {
    var c, y := Child(v, p[0]).value, Write(Child(v, p[0]).value, p[1..], x);
    assert Steps(v, p)[1..] == Steps(c, p[1..]);
    if segs[1..] != [] { DropForgets(c, p[1..], x, segs[1..]); }
    if v.Obj? { FieldForgotten(v.fields, p[0], y, segs[1..]); } else { ItemForgotten(v.items, p[0], y, segs[1..]); }
  }

  /** What dropping leaves of a text is that text, and of anything else no text. */
  predicate SameText(a: Value, b: Value) {
    a.Str? || b.Str? ==> a == b
  }

  lemma {:induction false} FieldsKept(fields: List<Field>, key: string, rest: seq<string>, k: string)
    requires k == key ==> rest != []
    ensures var was := Lookup(fields, k);
      Lookup(DropFields(fields, key, rest), k)
      == if was.None? then None else Some(if k == key then Drop(was.value, rest) else was.value)
    decreases fields
  {
    if fields.Cons? { FieldsKept(fields.tail, key, rest, k); }
  }

  lemma {:induction false} ItemKept(items: List<Value>, i: nat, rest: seq<string>, j: nat)
    requires ItemAt(items, j).Some? && (j == i ==> rest != [])
    ensures ItemAt(DropItem(items, i, rest), j)
         == Some(if j == i then Drop(ItemAt(items, j).value, rest) else ItemAt(items, j).value)
    decreases items
  {
    if i > 0 && j > 0 { ItemKept(items.tail, i - 1, rest, j - 1); }
  }

  lemma {:induction false} ItemInside(items: List<Value>, i: nat)
    requires ItemAt(items, i).Some?
    ensures i < Length(items)
  {
    if i > 0 { ItemInside(items.tail, i - 1); }
  }

  lemma StepKept(v: Value, segs: seq<string>, s: Step)
    requires segs != [] && Find(v, s).Some? && (Names(segs[0], s) ==> |segs| > 1)
    ensures Find(Drop(v, segs), s)
         == Some(if Names(segs[0], s) then Drop(Find(v, s).value, segs[1..]) else Find(v, s).value)
  {
    match s
    case Member(k) => FieldsKept(v.fields, segs[0], segs[1..], k);
    case Element(j) =>
      ItemInside(v.items, j);
      var i := IndexIn(v.items, segs[0]);
      if i.Some? { ItemKept(v.items, i.value, segs[1..], j); }
  }

  /** A place no part of the path leads to is still found, with the same text. */
  lemma {:induction false} TextKept(v: Value, segs: seq<string>, steps: seq<Step>)
    requires segs != [] && FindAll(v, steps).Some? && !Covers(segs, steps)
    ensures var w := FindAll(Drop(v, segs), steps); w.Some? && SameText(FindAll(v, steps).value, w.value)
    decreases |steps|
  {
    if steps != [] {
      StepKept(v, segs, steps[0]);
      if Names(segs[0], steps[0]) { TextKept(Find(v, steps[0]).value, segs[1..], steps[1..]); }
    }
  }

  lemma {:induction false} TextsKept(v: Value, paths: seq<string>, steps: seq<Step>)
    requires FindAll(v, steps).Some? && forall path <- paths :: path != "" ==> !Covers(Segments(path), steps)
    ensures var w := FindAll(DropAll(v, paths), steps); w.Some? && SameText(FindAll(v, steps).value, w.value)
    decreases |paths|
  {
    if paths != [] {
      assert paths[0] in paths;
      if paths[0] != "" { TextKept(v, Segments(paths[0]), steps); }
      TextsKept(DropPath(v, paths[0]), paths[1..], steps);
    }
  }

  lemma {:induction false} NormFinds(v: Value, steps: seq<Step>)
    requires FindAll(v, steps).Some?
    ensures FindAll(Norm(v), steps) == Some(Norm(FindAll(v, steps).value))
    decreases |steps|
  {
    if steps != [] {
      match steps[0] {
        case Member(k) => NormKeepsLookup(v.fields, k);
        case Element(i) => NormItemAt(v.items, i);
      }
      NormFinds(Find(v, steps[0]).value, steps[1..]);
    }
  }

  lemma {:induction false} NormItemAt(items: List<Value>, i: nat)
    requires ItemAt(items, i).Some?
    ensures ItemAt(NormItems(items), i) == Some(Norm(ItemAt(items, i).value))
  {
    if i > 0 { NormItemAt(items.tail, i - 1); }
  }

  lemma {:induction false} ShownFinds(v: Value, p: Place)
    requires ReadAt(v, p).Some? && !Hidden(v, p)
    ensures FindAll(v, Steps(v, p)) == ReadAt(v, p)
    decreases |p|
  {
    if p != [] {
      var c := Child(v, p[0]).value;
      ShownFinds(c, p[1..]);
      if v.Obj? { ShownField(v.fields, p[0]); }
      assert Steps(v, p)[1..] == Steps(c, p[1..]);
    }
  }

  /** The text of a place that is neither hidden nor dropped is found in what takes part in matching. */
  lemma ShownText(v: Value, p: Place, paths: seq<string>)
    requires ReadAt(v, p).Some? && !Hidden(v, p) && !Dropped(v, p, paths)
    ensures var w := FindAll(DropAll(Norm(v), paths), Steps(v, p));
      w.Some? && SameText(Norm(ReadAt(v, p).value), w.value)
  {
    ShownFinds(v, p);
    NormFinds(v, Steps(v, p));
    TextsKept(Norm(v), paths, Steps(v, p));
  }

  // ---------------------------------------------------------------- when writing shows

  /** Writing a text at a place does not show: a volatile path leads to it or above it, a later field hides
      it, or the text stands there already. */
  predicate Unseen(v: Value, p: Place, text: string, paths: seq<string>) {
    Dropped(v, p, paths) || Hidden(v, p) || ReadAt(v, p) == Some(Str(text))
  }

  /** What volatile paths leave of a body does not depend on what stands at or under any of them. */
  lemma VolatileForgets(v: Value, p: Place, x: Value, paths: seq<string>)
    requires ReadAt(v, p).Some? && Dropped(v, p, paths)
    ensures DropAll(Norm(Write(v, p, x)), paths) == DropAll(Norm(v), paths)
  {
    var path :| path in paths && path != "" && Covers(Segments(path), Steps(v, p));
    var segs := Segments(path);
    var w := Write(v, p, x);
    DropForgets(v, p, x, segs);
    DropNorm(v, segs);
    DropNorm(w, segs);
    PathAbsorbed(Norm(v), path, paths);
    PathAbsorbed(Norm(w), path, paths);
  }

  lemma OneUnseen(v: Value, p: Place, text: string, paths: seq<string>)
    requires ReadAt(v, p).Some? && Unseen(v, p, text, paths)
    ensures DropAll(Norm(Write(v, p, Str(text))), paths) == DropAll(Norm(v), paths)
  {
    if Dropped(v, p, paths) { VolatileForgets(v, p, Str(text), paths); }
    else { OverwriteShowsIff(v, p, Str(text)); }
  }

  lemma {:induction false} AllUnseen(v: Value, ps: seq<Place>, text: string, paths: seq<string>)
    requires AllIn(v, ps) && AllApart(ps) && forall p <- ps :: Unseen(v, p, text, paths)
    ensures DropAll(Norm(WriteAll(v, ps, Str(text))), paths) == DropAll(Norm(v), paths)
    decreases |ps|
  {
    if ps != [] {
      assert ps[0] in ps;
      OneUnseen(v, ps[0], text, paths);
      OneWritten(v, ps, Str(text));
      forall q <- ps[1..] ensures Unseen(Write(v, ps[0], Str(text)), q, text, paths) { assert q in ps; }
      AllUnseen(Write(v, ps[0], Str(text)), ps[1..], text, paths);
    }
  }

  /** Writing a text over any places leaves what takes part in matching as it was exactly when it shows at
      none of them. */
  lemma WritesShowIff(v: Value, ps: seq<Place>, text: string, paths: seq<string>)
    requires AllIn(v, ps) && AllApart(ps)
    ensures DropAll(Norm(WriteAll(v, ps, Str(text))), paths) == DropAll(Norm(v), paths)
      <==> forall p <- ps :: Unseen(v, p, text, paths)
  {
    if forall p <- ps :: Unseen(v, p, text, paths) { AllUnseen(v, ps, text, paths); }
    if DropAll(Norm(WriteAll(v, ps, Str(text))), paths) == DropAll(Norm(v), paths) {
      forall p <- ps ensures Unseen(v, p, text, paths) {
        if !Dropped(v, p, paths) && !Hidden(v, p) {
          WrittenAt(v, ps, Str(text), p);
          ShownText(v, p, paths);
          ShownText(WriteAll(v, ps, Str(text)), p, paths);
        }
      }
    }
  }

  // ---------------------------------------------------------------- printing

  lemma {:induction false} FieldPrintable(fields: List<Field>, i: nat, x: Value)
    requires PrintableFields(fields) && Printable(x)
    ensures FieldAt(fields, i).Some? ==> Printable(FieldAt(fields, i).value.val)
    ensures PrintableFields(PutField(fields, i, x))
  {
    if fields.Cons? && i > 0 { FieldPrintable(fields.tail, i - 1, x); }
  }

  lemma {:induction false} ItemPrintable(items: List<Value>, i: nat, x: Value)
    requires PrintableItems(items) && Printable(x)
    ensures ItemAt(items, i).Some? ==> Printable(ItemAt(items, i).value)
    ensures PrintableItems(PutItem(items, i, x))
  {
    if items.Cons? && i > 0 { ItemPrintable(items.tail, i - 1, x); }
  }

  lemma ChildPrintable(v: Value, i: nat, x: Value)
    requires Printable(v) && Printable(x)
    ensures Child(v, i).Some? ==> Printable(Child(v, i).value)
    ensures Printable(PutChild(v, i, x))
  {
    match v
    case Obj(fields) => FieldPrintable(fields, i, x);
    case Arr(items) => ItemPrintable(items, i, x);
    case _ =>
  }

  lemma {:induction false} WritePrintable(v: Value, p: Place, x: Value)
    requires Printable(v) && Printable(x)
    ensures Printable(Write(v, p, x))
    decreases |p|
  {
    if p != [] && Child(v, p[0]).Some? {
      var c := Child(v, p[0]).value;
      ChildPrintable(v, p[0], x);
      WritePrintable(c, p[1..], x);
      ChildPrintable(v, p[0], Write(c, p[1..], x));
    }
  }

  lemma {:induction false} WriteAllPrintable(v: Value, ps: seq<Place>, x: Value)
    requires Printable(v) && Printable(x)
    ensures Printable(WriteAll(v, ps, x))
    decreases |ps|
  {
    if ps != [] {
      WritePrintable(v, ps[0], x);
      WriteAllPrintable(Write(v, ps[0], x), ps[1..], x);
    }
  }

  // ---------------------------------------------------------------- the dotted reading of a path

  function FirstIndex(fields: List<Field>, key: string): Option<nat> {
    match fields
    case Nil => None
    case Cons(f, rest) =>
      if f.key == key then Some(0)
      else
        var i :- FirstIndex(rest, key);
        Some(i + 1)
  }

  function DottedChild(v: Value, seg: string): Option<nat> {
    match v
    case Obj(fields) => FirstIndex(fields, seg)
    case Arr(items) => IndexIn(items, seg)
    case _ => None
  }

  /** The place the segments lead to one after the other; in an object, to the first field of that key. */
  function DottedPlace(v: Value, segs: seq<string>): Option<Place>
    decreases |segs|
  {
    if segs == [] then Some([])
    else
      var i :- DottedChild(v, segs[0]);
      if Child(v, i).None? then None
      else
        var p :- DottedPlace(Child(v, i).value, segs[1..]);
        Some([i] + p)
  }

  /** Characters a query of the JSON library gives a meaning to. */
  const QUERY_SYNTAX: string := "\\*?#|@!{[:"

  /** A segment that names one key or one index, to the JSON library as to a volatile path. */
  predicate PlainSegment(seg: string) {
    && seg != "" && (forall c <- seg :: c !in QUERY_SYNTAX)
    && (Atoi(seg).Some? ==> IsDigit(seg[0]) && |seg| <= 18)
  }

  predicate Dotted(path: string) {
    forall seg <- Segments(path) :: PlainSegment(seg)
  }

  /** No object repeats a key. */
  predicate Once(v: Value)
    decreases v
  {
    match v
    case Obj(fields) => OnceFields(fields)
    case Arr(items) => OnceItems(items)
    case _ => true
  }

  predicate OnceFields(fields: List<Field>)
    decreases fields
  {
    fields.Cons? ==> Once(fields.head.val) && Lookup(fields.tail, fields.head.key).None? && OnceFields(fields.tail)
  }

  predicate OnceItems(items: List<Value>)
    decreases items
  {
    items.Cons? ==> Once(items.head) && OnceItems(items.tail)
  }

  lemma {:induction false} FirstHasKey(fields: List<Field>, key: string)
    requires FirstIndex(fields, key).Some?
    ensures var f := FieldAt(fields, FirstIndex(fields, key).value); f.Some? && f.value.key == key
  {
    if fields.head.key != key { FirstHasKey(fields.tail, key); }
  }

  /** The place a path leads to is covered by that path. */
  lemma {:induction false} DottedCovered(v: Value, segs: seq<string>)
    requires DottedPlace(v, segs).Some?
    ensures var p := DottedPlace(v, segs).value;
      |p| == |segs| && ReadAt(v, p).Some? && Covers(segs, Steps(v, p))
    decreases |segs|
  {
    if segs != [] {
      var i := DottedChild(v, segs[0]).value;
      var c := Child(v, i).value;
      DottedCovered(c, segs[1..]);
      if v.Obj? { FirstHasKey(v.fields, segs[0]); }
      var p, q := DottedPlace(v, segs).value, DottedPlace(c, segs[1..]).value;
      assert p[1..] == q && Steps(v, p)[1..] == Steps(c, q);
    }
  }
}
