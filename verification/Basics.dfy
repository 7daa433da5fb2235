/** Lists, texts and options. Lists carry the few facts about sequences that the other modules lean on:
    concatenation regrouped, mapping taken apart, and contents kept under mapping. */
module Lists {

  datatype List<+T> = Nil | Cons(head: T, tail: List<T>)

  lemma Assoc<T>(a: seq<T>, b: seq<T>, c: seq<T>)
    ensures (a + b) + c == a + (b + c)
  {
  }

  lemma NothingAdded<T>(a: seq<T>)
    ensures a + [] == a && [] + a == a
  {
  }

  lemma AssocFour<T>(a: seq<T>, b: seq<T>, c: seq<T>, d: seq<T>)
    ensures (a + (b + c)) + d == a + (b + (c + d))
  {
    Assoc(a, b + c, d);
    Assoc(b, c, d);
  }

  lemma SameEnds<T>(a: seq<T>, x: seq<T>, b: seq<T>, y: seq<T>)
    requires a + x == b + y && |x| == |y|
    ensures a == b && x == y
  {
    assert (a + x)[..|a|] == a && (b + y)[..|b|] == b;
    assert (a + x)[|a|..] == x && (b + y)[|b|..] == y;
  }

  function MapSeq<A, B>(f: A -> B, s: seq<A>): (r: seq<B>)
    ensures |r| == |s|
  {
    if s == [] then [] else [f(s[0])] + MapSeq(f, s[1..])
  }

  /** The state a list of steps leads to. */
  function Fold<S, D>(step: (S, D) -> S, st: S, ds: seq<D>): S
    decreases |ds|
  {
    if ds == [] then st else Fold(step, step(st, ds[0]), ds[1..])
  }

  lemma {:induction false} FoldAppend<S, D>(step: (S, D) -> S, st: S, a: seq<D>, b: seq<D>)
    ensures Fold(step, st, a + b) == Fold(step, Fold(step, st, a), b)
    decreases |a|
  {
    if a == [] {
      assert a + b == b;
    } else {
      assert (a + b)[1..] == a[1..] + b;
      FoldAppend(step, step(st, a[0]), a[1..], b);
    }
  }

  lemma {:induction false} MapSeqAt<A, B>(f: A -> B, s: seq<A>, k: nat)
    requires k < |s|
    ensures MapSeq(f, s)[k] == f(s[k])
  {
    if k > 0 { MapSeqAt(f, s[1..], k - 1); }
  }

  lemma {:induction false} SubsetSize<T>(a: set<T>, b: set<T>)
    requires a <= b
    ensures |a| <= |b| && (|a| == |b| ==> a == b)
  {
    if a != {} {
      var x :| x in a;
      SubsetSize(a - {x}, b - {x});
    }
  }

  lemma {:induction false} MapSeqSame<A, B>(f: A -> B, g: A -> B, s: seq<A>)
    requires forall x <- s :: f(x) == g(x)
    ensures MapSeq(f, s) == MapSeq(g, s)
  {
    if s != [] {
      assert s[0] in s;
      forall x <- s[1..] ensures f(x) == g(x) { assert x in s; }
      MapSeqSame(f, g, s[1..]);
    }
  }

  lemma {:induction false} MapSeqAppend<A, B>(f: A -> B, a: seq<A>, b: seq<A>)
    ensures MapSeq(f, a + b) == MapSeq(f, a) + MapSeq(f, b)
  {
    if a == [] {
      assert a + b == b;
    } else {
      assert (a + b)[1..] == a[1..] + b;
      MapSeqAppend(f, a[1..], b);
    }
  }

  lemma MapSeqSnoc<A, B>(f: A -> B, s: seq<A>, x: A)
    ensures MapSeq(f, s + [x]) == MapSeq(f, s) + [f(x)]
  {
    MapSeqAppend(f, s, [x]);
    assert [x][1..] == [];
  }

  lemma OneMore<T>(a: seq<T>, more: seq<T>)
    requires more != []
    ensures a + [more[0]] + more[1..] == a + more
  {
  }

  /** Mapping a list in place, one element at a time. */
  lemma MapSeqStep<A>(f: A -> A, was: seq<A>, i: nat)
    requires i < |was|
    ensures MapSeq(f, was[..i + 1]) + was[i + 1..] == (MapSeq(f, was[..i]) + was[i..])[i := f(was[i])]
  {
    assert was[..i + 1] == was[..i] + [was[i]];
    MapSeqAppend(f, was[..i], [was[i]]);
    assert [was[i]][1..] == [] && MapSeq(f, [was[i]]) == [f(was[i])];
  }

  lemma MapSeqMiddle<A, B>(f: A -> B, l: seq<A>, x: A, r: seq<A>)
    ensures multiset(MapSeq(f, l + [x] + r)) == multiset(MapSeq(f, l + r)) + multiset{f(x)}
  {
    MapSeqAppend(f, l + [x], r);
    MapSeqAppend(f, l, [x]);
    MapSeqAppend(f, l, r);
    assert [x][1..] == [];
  }

  lemma SumCancels<A>(x: multiset<A>, y: multiset<A>, z: multiset<A>)
    requires x + y == x + z
    ensures y == z
  {
    forall e ensures y[e] == z[e] {
      assert (x + y)[e] == x[e] + y[e] && (x + z)[e] == x[e] + z[e];
    }
  }

  /** Rearranging before or after mapping gives the same contents. */
  lemma {:induction false} MapSeqContents<A, B>(f: A -> B, a: seq<A>, b: seq<A>)
    requires multiset(a) == multiset(b)
    ensures multiset(MapSeq(f, a)) == multiset(MapSeq(f, b))
  {
    if a == [] {
      assert |multiset(b)| == 0;
    } else {
      assert a[0] in multiset(b);
      var i :| 0 <= i < |b| && b[i] == a[0];
      var l, r := b[..i], b[i + 1..];
      assert a == [] + [a[0]] + a[1..] && b == l + [a[0]] + r;
      assert multiset(a) == multiset{a[0]} + multiset(a[1..]);
      assert multiset(b) == multiset(l) + multiset{a[0]} + multiset(r);
      assert multiset(l + r) == multiset(l) + multiset(r);
      SumCancels(multiset{a[0]}, multiset(a[1..]), multiset(l + r));
      MapSeqContents(f, a[1..], l + r);
      MapSeqMiddle(f, [], a[0], a[1..]);
      MapSeqMiddle(f, l, a[0], r);
      assert [] + a[1..] == a[1..];
    }
  }
}

module Texts {
  function Join(pieces: seq<string>): string {
    if pieces == [] then "" else pieces[0] + Join(pieces[1..])
  }

  lemma {:induction false} JoinAppend(a: seq<string>, b: seq<string>)
    ensures Join(a + b) == Join(a) + Join(b)
  {
    if a == [] {
      assert a + b == b;
    } else {
      assert (a + b)[1..] == a[1..] + b;
      JoinAppend(a[1..], b);
    }
  }

  /** The last of some texts that is not empty. */
  function LastSet(texts: seq<string>): string {
    if texts == [] then ""
    else if texts[|texts| - 1] != "" then texts[|texts| - 1]
    else LastSet(texts[..|texts| - 1])
  }

  lemma LastSetSnoc(texts: seq<string>, t: string)
    ensures LastSet(texts + [t]) == if t != "" then t else LastSet(texts)
  {
    assert (texts + [t])[..|texts|] == texts;
  }

  lemma {:induction false} LastSetAppend(a: seq<string>, b: seq<string>)
    ensures LastSet(a + b) == if LastSet(b) != "" then LastSet(b) else LastSet(a)
    decreases |b|
  {
    if b == [] {
      assert a + b == a;
    } else {
      var n := |b| - 1;
      assert (a + b)[..|a| + n] == a + b[..n];
      LastSetAppend(a, b[..n]);
    }
  }

  lemma LastSetCons(t: string, texts: seq<string>)
    ensures LastSet([t] + texts) == if LastSet(texts) != "" then LastSet(texts) else t
  {
    LastSetAppend([t], texts);
    assert [t][..0] == [];
  }

  lemma JoinSnoc(pieces: seq<string>, p: string)
    ensures Join(pieces + [p]) == Join(pieces) + p
  {
    JoinAppend(pieces, [p]);
    assert [p][1..] == [] && p + "" == p;
  }

  predicate OccursAt(s: string, sub: string, i: nat) {
    i + |sub| <= |s| && forall k | 0 <= k < |sub| :: s[i + k] == sub[k]
  }

  predicate Contains(s: string, sub: string) {
    exists i: nat | i <= |s| :: OccursAt(s, sub, i)
  }

  /** A text with another inside it. */
  ghost predicate Inside(s: string, sub: string) {
    exists pre: string, post: string :: s == pre + sub + post
  }

  lemma ContainsIff(s: string, sub: string)
    ensures Contains(s, sub) <==> Inside(s, sub)
  {
    if Contains(s, sub) {
      var i: nat :| i <= |s| && OccursAt(s, sub, i);
      assert s == s[..i] + sub + s[i + |sub|..];
    }
    if Inside(s, sub) {
      var pre: string, post: string :| s == pre + sub + post;
      assert s[|pre|..][..|sub|] == sub;
      forall k | 0 <= k < |sub| ensures s[|pre| + k] == sub[k] { assert s[|pre|..][..|sub|][k] == s[|pre| + k]; }
      assert OccursAt(s, sub, |pre|);
    }
  }

  /** Upper case, for the letters a method name is made of. */
  function Upper(s: string): string {
    if s == "" then ""
    else [if 'a' <= s[0] <= 'z' then (s[0] as int - 32) as char else s[0]] + Upper(s[1..])
  }

  /** A checksum tells some texts apart. */
  predicate Tells(sum: string -> string, texts: set<string>) {
    forall a <- texts, b <- texts :: sum(a) == sum(b) ==> a == b
  }

  predicate HasSuffix(s: string, end: string) {
    |end| <= |s| && s[|s| - |end|..] == end
  }
}

module Options {
  datatype Option<+T> = None | Some(value: T) {
    predicate IsFailure() { None? }
    function PropagateFailure<U>(): Option<U> requires None? { None }
    function Extract(): T requires Some? { value }
  }
}
