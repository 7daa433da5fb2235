/** Split and stitched, word by word. */
module SplitReplay {
  import opened Lists
  import opened Options
  import opened Cassettes
  import opened Replay
  import opened Compose

  /** The responses of a key in one part, in order. */
  function Word(axis: Interaction -> string, keyOf: KeyFn, items: seq<Interaction>, key: string, name: string): seq<Response> {
    Replies(keyOf, Part(axis, items, name), key)
  }

  /** The words of the parts one after the other. */
  function Spelled(axis: Interaction -> string, keyOf: KeyFn, items: seq<Interaction>, key: string, order: seq<string>)
    : seq<Response>
  {
    if order == [] then []
    else
      var n := |order| - 1;
      Spelled(axis, keyOf, items, key, order[..n]) + Word(axis, keyOf, items, key, order[n])
  }

  lemma {:induction false} StitchedSpells(axis: Interaction -> string, keyOf: KeyFn, f: File, order: seq<string>, key: string)
    ensures Replies(keyOf, Stitched(Parts(axis, f, order)).interactions, key) == Spelled(axis, keyOf, f.interactions, key, order)
  {
    if order != [] {
      StitchOne(axis, keyOf, f, order, key);
      StitchedSpells(axis, keyOf, f, order[..|order| - 1], key);
    }
  }

  lemma SpelledSnoc(axis: Interaction -> string, keyOf: KeyFn, items: seq<Interaction>, key: string, order: seq<string>,
                    x: string)
    ensures Spelled(axis, keyOf, items, key, order + [x])
         == Spelled(axis, keyOf, items, key, order) + Word(axis, keyOf, items, key, x)
  {
    assert (order + [x])[..|order|] == order;
  }

  lemma {:induction false} SpelledAppend(axis: Interaction -> string, keyOf: KeyFn, items: seq<Interaction>, key: string,
                                         a: seq<string>, b: seq<string>)
    ensures Spelled(axis, keyOf, items, key, a + b)
         == Spelled(axis, keyOf, items, key, a) + Spelled(axis, keyOf, items, key, b)
    decreases |b|
  {
    if b == [] {
      assert a + b == a;
      NothingAdded(Spelled(axis, keyOf, items, key, a));
    } else {
      var n := |b| - 1;
      assert a + b == (a + b[..n]) + [b[n]];
      SpelledSnoc(axis, keyOf, items, key, a + b[..n], b[n]);
      SpelledAppend(axis, keyOf, items, key, a, b[..n]);
      Assoc(Spelled(axis, keyOf, items, key, a), Spelled(axis, keyOf, items, key, b[..n]), Word(axis, keyOf, items, key, b[n]));
    }
  }

  // ---------------------------------------------------------------- words that commute

  /** Any two parts hold responses of the key that can be put in either order. */
  predicate Commuting(axis: Interaction -> string, keyOf: KeyFn, items: seq<Interaction>, key: string) {
    forall p <- Names(axis, items), q <- Names(axis, items) ::
      Word(axis, keyOf, items, key, p) + Word(axis, keyOf, items, key, q)
      == Word(axis, keyOf, items, key, q) + Word(axis, keyOf, items, key, p)
  }

  lemma {:induction false} PastAll(axis: Interaction -> string, keyOf: KeyFn, items: seq<Interaction>, key: string,
                                   x: string, r: seq<string>)
    requires Commuting(axis, keyOf, items, key) && x in Names(axis, items)
    requires forall y <- r :: y in Names(axis, items)
    ensures var w, s := Word(axis, keyOf, items, key, x), Spelled(axis, keyOf, items, key, r); w + s == s + w
    decreases |r|
  {
    var w := Word(axis, keyOf, items, key, x);
    if r == [] {
      NothingAdded(w);
    } else {
      var n := |r| - 1;
      PastAll(axis, keyOf, items, key, x, r[..n]);
      var s, u := Spelled(axis, keyOf, items, key, r[..n]), Word(axis, keyOf, items, key, r[n]);
      assert r[n] in r && w + u == u + w;
      Assoc(w, s, u);
      Assoc(s, w, u);
      Assoc(s, u, w);
    }
  }

  lemma MovedLast(axis: Interaction -> string, keyOf: KeyFn, items: seq<Interaction>, key: string,
                  l: seq<string>, x: string, r: seq<string>)
    requires Commuting(axis, keyOf, items, key) && x in Names(axis, items) && forall y <- r :: y in Names(axis, items)
    ensures Spelled(axis, keyOf, items, key, l + [x] + r)
         == Spelled(axis, keyOf, items, key, l + r) + Word(axis, keyOf, items, key, x)
  {
    PastAll(axis, keyOf, items, key, x, r);
    SpelledAppend(axis, keyOf, items, key, l + [x], r);
    SpelledSnoc(axis, keyOf, items, key, l, x);
    SpelledAppend(axis, keyOf, items, key, l, r);
    var w := Word(axis, keyOf, items, key, x);
    Assoc(Spelled(axis, keyOf, items, key, l), w, Spelled(axis, keyOf, items, key, r));
    Assoc(Spelled(axis, keyOf, items, key, l), Spelled(axis, keyOf, items, key, r), w);
  }

  /** Commuting words spell the same in every order. */
  lemma {:induction false} SameSpelling(axis: Interaction -> string, keyOf: KeyFn, items: seq<Interaction>, key: string,
                                        a: seq<string>, b: seq<string>)
    requires Commuting(axis, keyOf, items, key) && Distinct(a) && Distinct(b) && Elements(a) == Elements(b)
    requires Elements(a) <= Names(axis, items)
    ensures Spelled(axis, keyOf, items, key, a) == Spelled(axis, keyOf, items, key, b)
    decreases |b|
  {
    if b == [] {
      if a != [] { SomeName(a); }
    } else {
      var n := |b| - 1;
      var x := b[n];
      assert x in Elements(b);
      var i :| 0 <= i < |a| && a[i] == x;
      var l, r := a[..i], a[i + 1..];
      Without(a, b, i);
      SameSpelling(axis, keyOf, items, key, l + r, b[..n]);
      forall y <- r ensures y in Names(axis, items) { assert y in a && y in Elements(a); }
      assert a == (l + [x]) + r;
      MovedLast(axis, keyOf, items, key, l, x, r);
    }
  }

  lemma SomeName(a: seq<string>)
    requires a != []
    ensures Elements(a) != {}
  {
    assert a[0] in Elements(a);
  }

  /** Taking the last name of one order out of the other leaves the same names. */
  lemma Without(a: seq<string>, b: seq<string>, i: nat)
    requires Distinct(a) && Distinct(b) && Elements(a) == Elements(b) && b != [] && i < |a| && a[i] == b[|b| - 1]
    ensures var rest := a[..i] + a[i + 1..]; var n := |b| - 1;
      Distinct(rest) && Distinct(b[..n]) && Elements(rest) == Elements(b[..n]) && Elements(rest) <= Elements(a)
  {
    var rest, n := a[..i] + a[i + 1..], |b| - 1;
    forall k | 0 <= k < |rest| ensures rest[k] == a[if k < i then k else k + 1] {}
    forall y ensures y in rest <==> y in a && y != a[i] {
      if y in a && y != a[i] {
        var k :| 0 <= k < |a| && a[k] == y;
        assert rest[if k < i then k else k - 1] == y;
      }
    }
    assert b == b[..n] + [b[n]];
    forall y ensures y in rest <==> y in b[..n] {
      assert y in a <==> y in Elements(a);
      assert y in b <==> y in Elements(b);
    }
  }

  // ---------------------------------------------------------------- exactly then

  /** Two orders that end on two names in turn. */
  lemma Swapped(names: set<string>, p: string, q: string) returns (rest: seq<string>)
    requires p in names && q in names && p != q
    ensures Distinct(rest + [p] + [q]) && Elements(rest + [p] + [q]) == names
    ensures Distinct(rest + [q] + [p]) && Elements(rest + [q] + [p]) == names
  {
    rest := Enumerate(names - {p, q});
    forall y ensures y in rest <==> y in names && y != p && y != q { assert y in rest <==> y in Elements(rest); }
  }

  lemma SwapCommutes(axis: Interaction -> string, keyOf: KeyFn, f: File, key: string, p: string, q: string)
    requires AllOrdersEquivalent(axis, keyOf, f, Fail)
    requires p in Names(axis, f.interactions) && q in Names(axis, f.interactions) && p != q
    ensures Word(axis, keyOf, f.interactions, key, p) + Word(axis, keyOf, f.interactions, key, q)
         == Word(axis, keyOf, f.interactions, key, q) + Word(axis, keyOf, f.interactions, key, p)
  {
    var items := f.interactions;
    var rest := Swapped(Names(axis, items), p, q);
    SpelledAll(axis, keyOf, f, rest + [p] + [q], key);
    SpelledAll(axis, keyOf, f, rest + [q] + [p], key);
    SpelledSnoc(axis, keyOf, items, key, rest + [p], q);
    SpelledSnoc(axis, keyOf, items, key, rest, p);
    SpelledSnoc(axis, keyOf, items, key, rest + [q], p);
    SpelledSnoc(axis, keyOf, items, key, rest, q);
    var s := Spelled(axis, keyOf, items, key, rest);
    var u, v := Word(axis, keyOf, items, key, p), Word(axis, keyOf, items, key, q);
    Assoc(s, u, v);
    Assoc(s, v, u);
    assert (s + (u + v))[|s|..] == u + v && (s + (v + u))[|s|..] == v + u;
  }

  lemma SpelledAll(axis: Interaction -> string, keyOf: KeyFn, f: File, order: seq<string>, key: string)
    requires AllOrdersEquivalent(axis, keyOf, f, Fail) && Distinct(order) && Elements(order) == Names(axis, f.interactions)
    ensures Spelled(axis, keyOf, f.interactions, key, order) == Replies(keyOf, f.interactions, key)
  {
    var s := Stitched(Parts(axis, f, order)).interactions;
    assert Equivalent(keyOf, s, f.interactions, Fail);
    RepliesAlike(keyOf, s, f.interactions, key, Fail);
    StitchedSpells(axis, keyOf, f, order, key);
  }

  /** The parts give back the responses of a key: in some order they spell them, and any two commute. */
  predicate SplitsBack(axis: Interaction -> string, keyOf: KeyFn, items: seq<Interaction>, order: seq<string>, key: string) {
    Commuting(axis, keyOf, items, key) && Spelled(axis, keyOf, items, key, order) == Replies(keyOf, items, key)
  }

  lemma {:induction false} NoKeySpells(axis: Interaction -> string, keyOf: KeyFn, items: seq<Interaction>, key: string,
                                       order: seq<string>)
    requires forall it <- items :: keyOf(it) != Some(key)
    ensures Spelled(axis, keyOf, items, key, order) == [] == Replies(keyOf, items, key)
    decreases |order|
  {
    NoKeyNoReplies(keyOf, items, key);
    if order != [] {
      PartSilent(axis, keyOf, items, order[|order| - 1], key);
      NoKeySpells(axis, keyOf, items, key, order[..|order| - 1]);
    }
  }

  /** Whatever the responses: stitching the parts back in every order replays like the original, failing on
      over-consumption, exactly when for each key the responses of any two parts can be put in either order
      and those of all parts, in one order, are the original ones. */
  lemma SplitStitchFailIff(axis: Interaction -> string, keyOf: KeyFn, f: File, order: seq<string>)
    requires Distinct(order) && Elements(order) == Names(axis, f.interactions)
    ensures AllOrdersEquivalent(axis, keyOf, f, Fail)
      <==> forall it <- f.interactions | keyOf(it).Some? :: SplitsBack(axis, keyOf, f.interactions, order, keyOf(it).value)
  {
    var items := f.interactions;
    if AllOrdersEquivalent(axis, keyOf, f, Fail) {
      forall it <- items | keyOf(it).Some? ensures SplitsBack(axis, keyOf, items, order, keyOf(it).value) {
        SpelledAll(axis, keyOf, f, order, keyOf(it).value);
        forall p <- Names(axis, items), q <- Names(axis, items) | p != q
          ensures Word(axis, keyOf, items, keyOf(it).value, p) + Word(axis, keyOf, items, keyOf(it).value, q)
               == Word(axis, keyOf, items, keyOf(it).value, q) + Word(axis, keyOf, items, keyOf(it).value, p)
        {
          SwapCommutes(axis, keyOf, f, keyOf(it).value, p, q);
        }
      }
    }
    if forall it <- items | keyOf(it).Some? :: SplitsBack(axis, keyOf, items, order, keyOf(it).value) {
      forall other | Distinct(other) && Elements(other) == Names(axis, items)
        ensures Equivalent(keyOf, Stitched(Parts(axis, f, other)).interactions, items, Fail)
      {
        SplitBackEquivalent(axis, keyOf, f, order, other);
      }
    }
  }

  lemma SplitBackEquivalent(axis: Interaction -> string, keyOf: KeyFn, f: File, order: seq<string>, other: seq<string>)
    requires Distinct(order) && Elements(order) == Names(axis, f.interactions)
    requires Distinct(other) && Elements(other) == Names(axis, f.interactions)
    requires forall it <- f.interactions | keyOf(it).Some? :: SplitsBack(axis, keyOf, f.interactions, order, keyOf(it).value)
    ensures Equivalent(keyOf, Stitched(Parts(axis, f, other)).interactions, f.interactions, Fail)
  {
    var items := f.interactions;
    var s := Stitched(Parts(axis, f, other)).interactions;
    forall key ensures Replies(keyOf, s, key) == Replies(keyOf, items, key) {
      StitchedSpells(axis, keyOf, f, other, key);
      if exists it <- items :: keyOf(it) == Some(key) {
        var it :| it in items && keyOf(it) == Some(key);
        assert SplitsBack(axis, keyOf, items, order, keyOf(it).value);
        SameSpelling(axis, keyOf, items, key, order, other);
      } else {
        NoKeySpells(axis, keyOf, items, key, other);
      }
    }
    EqualRepliesAlike(keyOf, s, items, Fail);
  }
}
