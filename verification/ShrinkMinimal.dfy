/** When the kept recordings are minimal. */
module ShrinkMinimal {
  import opened Lists
  import opened Shrink

  lemma {:induction false} CoveredMember<T>(sigs: seq<set<T>>, picks: seq<nat>, x: T)
    requires InRange(sigs, picks)
    ensures x in Covered(sigs, picks) <==> exists k | 0 <= k < |picks| :: x in sigs[picks[k]]
  {
    if picks != [] {
      CoveredMember(sigs, picks[1..], x);
      if x in Covered(sigs, picks[1..]) {
        var k :| 0 <= k < |picks[1..]| && x in sigs[picks[1..][k]];
        assert picks[k + 1] == picks[1..][k];
      }
      if exists k | 0 <= k < |picks| :: x in sigs[picks[k]] {
        var k :| 0 <= k < |picks| && x in sigs[picks[k]];
        if k > 0 { assert x in sigs[picks[1..][k - 1]]; }
      }
    }
  }

  /** What the t-th pick added when it was picked. */
  function Added<T>(sigs: seq<set<T>>, picks: seq<nat>, t: nat): set<T>
    requires InRange(sigs, picks) && t < |picks|
  {
    sigs[picks[t]] - Covered(sigs, picks[..t])
  }

  lemma {:induction false} PickAdds<T>(sigs: seq<set<T>>, covered: set<T>, t: nat)
    requires covered <= Union(sigs) && t < |Greedy(sigs, covered)|
    ensures var g := Greedy(sigs, covered);
      InRange(sigs, g) && !(sigs[g[t]] <= covered + Covered(sigs, g[..t]))
    decreases t
  {
    GreedyInRange(sigs, covered);
    GreedyStep(sigs, covered);
    RoundShrinks(sigs, covered);
    var g := Greedy(sigs, covered);
    if t == 0 {
      assert sigs[g[0]] - covered != {};
      assert g[..0] == [];
    } else {
      PickAdds(sigs, covered + sigs[g[0]], t - 1);
      assert g[..t][1..] == g[1..][..t - 1];
    }
  }

  /** The greedy picks are different, and cover the corpus. */
  predicate Picked<T>(sigs: seq<set<T>>, g: seq<nat>) {
    && InRange(sigs, g) && Covered(sigs, g) == Union(sigs)
    && forall s, t | 0 <= s < t < |g| :: g[s] != g[t]
  }

  lemma GreedyIsPicked<T>(sigs: seq<set<T>>)
    ensures Picked(sigs, Greedy(sigs, {}))
  {
    var g := Greedy(sigs, {});
    GreedyCovers(sigs, {});
    forall s, t | 0 <= s < t < |g| ensures g[s] != g[t] {
      PickAdds(sigs, {}, t);
      NewPick(sigs, g, s, t);
    }
  }

  lemma NewPick<T>(sigs: seq<set<T>>, g: seq<nat>, s: nat, t: nat)
    requires s < t < |g| && InRange(sigs, g) && !(sigs[g[t]] <= Covered(sigs, g[..t]))
    ensures g[s] != g[t]
  {
    var x :| x in sigs[g[t]] && x !in Covered(sigs, g[..t]);
    CoveredMember(sigs, g[..t], x);
    assert g[..t][s] == g[s];
  }

  lemma {:induction false} CoveredAppend<T>(sigs: seq<set<T>>, a: seq<nat>, b: seq<nat>)
    requires InRange(sigs, a) && InRange(sigs, b)
    ensures InRange(sigs, a + b) && Covered(sigs, a + b) == Covered(sigs, a) + Covered(sigs, b)
  {
    if a == [] {
      assert a + b == b;
    } else {
      CoveredAppend(sigs, a[1..], b);
      assert (a + b)[1..] == a[1..] + b;
    }
  }

  lemma CoverIff<T>(sigs: seq<set<T>>, h: seq<nat>)
    requires InRange(sigs, h)
    ensures IsCover(sigs, Elements(h)) <==> Union(sigs) <= Covered(sigs, h)
  {
    forall x <- Union(sigs) ensures Hit(sigs, Elements(h), x) <==> x in Covered(sigs, h) {
      CoveredMember(sigs, h, x);
      if x in Covered(sigs, h) {
        var k :| 0 <= k < |h| && x in sigs[h[k]];
        assert h[k] in Elements(h);
      }
      if Hit(sigs, Elements(h), x) {
        var i :| i in Elements(h) && i < |sigs| && x in sigs[i];
        var k :| 0 <= k < |h| && h[k] == i;
      }
    }
    forall i <- Elements(h) ensures i < |sigs| {
      var k :| 0 <= k < |h| && h[k] == i;
    }
  }

  lemma LeftOut(g: seq<nat>, t: nat)
    requires t < |g| && forall i, j | 0 <= i < j < |g| :: g[i] != g[j]
    ensures Elements(g[..t] + g[t + 1..]) == Elements(g) - {g[t]}
  {
    var h := g[..t] + g[t + 1..];
    forall k | 0 <= k < |h| ensures h[k] == g[if k < t then k else k + 1] {}
    forall i ensures i in h <==> i in g && i != g[t] {
      if i in g && i != g[t] {
        var k :| 0 <= k < |g| && g[k] == i;
        assert h[if k < t then k else k - 1] == i;
      }
    }
  }

  /** A kept recording can be left out exactly when the later picks have all it added. */
  lemma LeftOutIff<T>(sigs: seq<set<T>>, g: seq<nat>, t: nat)
    requires Picked(sigs, g) && t < |g|
    ensures IsCover(sigs, Elements(g) - {g[t]}) <==> Added(sigs, g, t) <= Covered(sigs, g[t + 1..])
  {
    LeftOut(g, t);
    CoveredAppend(sigs, g[..t], g[t + 1..]);
    CoverIff(sigs, g[..t] + g[t + 1..]);
    CoveredAppend(sigs, g[..t], g[t..]);
    assert g == g[..t] + g[t..] && g[t..][1..] == g[t + 1..];
  }

  lemma MoreCovers<T>(sigs: seq<set<T>>, c: set<nat>, d: set<nat>)
    requires IsCover(sigs, c) && c <= d && forall i <- d :: i < |sigs|
    ensures IsCover(sigs, d)
  {
    forall x <- Union(sigs) ensures Hit(sigs, d, x) {
      var i :| i in c && i < |sigs| && x in sigs[i];
      assert i in d;
    }
  }

  /** No part of a family of recordings covers the corpus. */
  ghost predicate Minimal<T>(sigs: seq<set<T>>, family: set<nat>) {
    forall c | c < family :: !IsCover(sigs, c)
  }

  lemma MinimalByOne<T>(sigs: seq<set<T>>, family: set<nat>)
    requires forall i <- family :: i < |sigs|
    ensures Minimal(sigs, family) <==> forall i <- family :: !IsCover(sigs, family - {i})
  {
    if Minimal(sigs, family) {
      forall i <- family ensures !IsCover(sigs, family - {i}) { assert family - {i} < family; }
    }
    if forall i <- family :: !IsCover(sigs, family - {i}) {
      forall c | c < family ensures !IsCover(sigs, c) {
        var i :| i in family && i !in c;
        if IsCover(sigs, c) { MoreCovers(sigs, c, family - {i}); }
      }
    }
  }

  /** What is kept is minimal exactly when each pick added something that no later pick has. */
  lemma MinimalIff<T>(sigs: seq<set<T>>)
    ensures var g := Greedy(sigs, {});
      && InRange(sigs, g)
      && (Minimal(sigs, Elements(g)) <==> forall t | 0 <= t < |g| :: !(Added(sigs, g, t) <= Covered(sigs, g[t + 1..])))
  {
    GreedyIsPicked(sigs);
    PickedMinimalIff(sigs, Greedy(sigs, {}));
  }

  lemma PickedMinimalIff<T>(sigs: seq<set<T>>, g: seq<nat>)
    requires Picked(sigs, g)
    ensures Minimal(sigs, Elements(g)) <==> forall t | 0 <= t < |g| :: !(Added(sigs, g, t) <= Covered(sigs, g[t + 1..]))
  {
    MinimalByOne(sigs, Elements(g));
    forall t | 0 <= t < |g|
      ensures g[t] in Elements(g)
      ensures IsCover(sigs, Elements(g) - {g[t]}) <==> Added(sigs, g, t) <= Covered(sigs, g[t + 1..])
    {
      LeftOutIff(sigs, g, t);
    }
  }

  /** Up to two recordings are kept only when no fewer cover the corpus. */
  lemma TwoAreFewest<T>(sigs: seq<set<T>>, c: set<nat>)
    requires |Greedy(sigs, {})| <= 2 && IsCover(sigs, c)
    ensures |Greedy(sigs, {})| <= |c|
  {
    if c == {} {
      NoFamily(sigs, Union(sigs));
      KeptAtMost(sigs, c, 0);
    } else if |c| == 1 {
      assert Pow(Pred(|c|), 1) == 0 && Pow(|c|, 1) == 1;
      KeptAtMost(sigs, c, 1);
    } else {
      SubsetSize({}, c);
    }
  }

  predicate OwnSignal<T>(sigs: seq<set<T>>, i: nat)
    requires i < |sigs|
  {
    exists x <- sigs[i] :: forall j | 0 <= j < |sigs| && j != i :: x !in sigs[j]
  }

  lemma OwnerInCover<T>(sigs: seq<set<T>>, c: set<nat>, i: nat)
    requires i < |sigs| && OwnSignal(sigs, i) && IsCover(sigs, c)
    ensures i in c
  {
    var x :| x in sigs[i] && forall j | 0 <= j < |sigs| && j != i :: x !in sigs[j];
    AtWithin(sigs, i);
    assert Hit(sigs, c, x);
  }

  /** When each kept recording has a signal of its own in the corpus, every cover contains them all: no
      choice of recordings covers with fewer. */
  lemma OwnersAreFewest<T>(sigs: seq<set<T>>, c: set<nat>)
    requires IsCover(sigs, c) && forall i <- Elements(Greedy(sigs, {})) :: i < |sigs| && OwnSignal(sigs, i)
    ensures Elements(Greedy(sigs, {})) <= c && |Elements(Greedy(sigs, {}))| <= |c|
  {
    var kept := Elements(Greedy(sigs, {}));
    forall i <- kept ensures i in c { OwnerInCover(sigs, c, i); }
    SubsetSize(kept, c);
  }

  lemma KeptHasSignals<T>(sigs: seq<set<T>>, i: nat)
    requires i in Elements(Greedy(sigs, {}))
    ensures i < |sigs| && sigs[i] != {}
  {
    var g := Greedy(sigs, {});
    var t :| 0 <= t < |g| && g[t] == i;
    PickAdds(sigs, {}, t);
  }

  lemma KeptCovers<T>(sigs: seq<set<T>>)
    ensures IsCover(sigs, Elements(Greedy(sigs, {})))
  {
    GreedyCovers(sigs, {});
    CoverIff(sigs, Greedy(sigs, {}));
  }

  /** Told from the corpus: when every recording that has a signal has one of its own, exactly those are
      kept, every cover contains them, and so they are the only smallest one. */
  lemma OwnersAreKept<T>(sigs: seq<set<T>>, c: set<nat>)
    requires forall i: nat | i < |sigs| && sigs[i] != {} :: OwnSignal(sigs, i)
    ensures Elements(Greedy(sigs, {})) == set i: nat | i < |sigs| && sigs[i] != {}
    ensures IsCover(sigs, c) ==>
      Elements(Greedy(sigs, {})) <= c && (|c| <= |Elements(Greedy(sigs, {}))| ==> c == Elements(Greedy(sigs, {})))
  {
    var kept := Elements(Greedy(sigs, {}));
    KeptCovers(sigs);
    forall i: nat ensures i in kept <==> i < |sigs| && sigs[i] != {} {
      if i in kept { KeptHasSignals(sigs, i); }
      if i < |sigs| && sigs[i] != {} { OwnerInCover(sigs, kept, i); }
    }
    if IsCover(sigs, c) {
      forall i <- kept ensures i in c { OwnerInCover(sigs, c, i); }
      SubsetSize(kept, c);
    }
  }

  /** And only then can no recording with a signal be left out of the corpus. */
  lemma AllNeededIff<T>(sigs: seq<set<T>>)
    ensures Minimal(sigs, set i: nat | i < |sigs| && sigs[i] != {})
      <==> forall i: nat | i < |sigs| && sigs[i] != {} :: OwnSignal(sigs, i)
  {
    var all := set i: nat | i < |sigs| && sigs[i] != {};
    MinimalByOne(sigs, all);
    forall i <- all ensures IsCover(sigs, all - {i}) <==> !OwnSignal(sigs, i) { NeededIff(sigs, all, i); }
  }

  lemma NeededIff<T>(sigs: seq<set<T>>, all: set<nat>, i: nat)
    requires all == (set k: nat | k < |sigs| && sigs[k] != {}) && i in all
    ensures IsCover(sigs, all - {i}) <==> !OwnSignal(sigs, i)
  {
    if OwnSignal(sigs, i) && IsCover(sigs, all - {i}) { OwnerInCover(sigs, all - {i}, i); }
    if !OwnSignal(sigs, i) {
      forall x <- Union(sigs) ensures Hit(sigs, all - {i}, x) {
        UnionMember(sigs, x);
        var k :| 0 <= k < |sigs| && x in sigs[k];
        var j := k;
        if k == i { j :| 0 <= j < |sigs| && j != i && x in sigs[j]; }
        assert j in all - {i};
      }
    }
  }
}
