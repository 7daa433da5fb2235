/** Shrinking a corpus by greedy set cover. */
module Shrink {
  import opened Lists

  // ---------------------------------------------------------------- the greedy choice

  function Union<T>(sigs: seq<set<T>>): set<T> {
    if sigs == [] then {} else sigs[0] + Union(sigs[1..])
  }

  function Gain<T>(sig: set<T>, covered: set<T>): nat {
    |sig - covered|
  }

  /** The first recording whose gain no other recording exceeds. */
  predicate IsBest<T>(sigs: seq<set<T>>, covered: set<T>, b: nat) {
    && b < |sigs|
    && (forall i | 0 <= i < |sigs| :: Gain(sigs[i], covered) <= Gain(sigs[b], covered))
    && (forall i | 0 <= i < b :: Gain(sigs[i], covered) < Gain(sigs[b], covered))
  }

  /** The best among the first n recordings. */
  function BestOf<T>(sigs: seq<set<T>>, covered: set<T>, n: nat): (b: nat)
    requires 0 < n <= |sigs|
    ensures b < n
  {
    if n == 1 then 0
    else
      var b := BestOf(sigs, covered, n - 1);
      if Gain(sigs[n - 1], covered) > Gain(sigs[b], covered) then n - 1 else b
  }

  lemma {:induction false} BestOfIsBest<T>(sigs: seq<set<T>>, covered: set<T>, n: nat)
    requires 0 < n <= |sigs|
    ensures IsBest(sigs[..n], covered, BestOf(sigs, covered, n))
  {
    if n > 1 {
      BestOfIsBest(sigs, covered, n - 1);
      var b := BestOf(sigs, covered, n - 1);
      forall i | 0 <= i < n - 1 ensures Gain(sigs[..n][i], covered) <= Gain(sigs[b], covered) {
        assert sigs[..n][i] == sigs[..n - 1][i];
      }
      forall i | 0 <= i < b ensures Gain(sigs[..n][i], covered) < Gain(sigs[b], covered) {
        assert sigs[..n][i] == sigs[..n - 1][i];
      }
    }
  }

  lemma {:induction false} UnionMember<T>(sigs: seq<set<T>>, x: T)
    ensures x in Union(sigs) <==> exists i | 0 <= i < |sigs| :: x in sigs[i]
  {
    if sigs != [] {
      UnionMember(sigs[1..], x);
      if x in Union(sigs[1..]) {
        var i :| 0 <= i < |sigs[1..]| && x in sigs[1..][i];
        assert x in sigs[i + 1];
      }
      if exists i | 0 <= i < |sigs| :: x in sigs[i] {
        var i :| 0 <= i < |sigs| && x in sigs[i];
        if i > 0 { assert x in sigs[1..][i - 1]; }
      }
    }
  }

  /** While something is uncovered the best recording gains, so the loop's early exit is never taken. */
  lemma BestGains<T>(sigs: seq<set<T>>, covered: set<T>)
    requires covered < Union(sigs)
    ensures |sigs| > 0 && Gain(sigs[BestOf(sigs, covered, |sigs|)], covered) > 0
    ensures IsBest(sigs, covered, BestOf(sigs, covered, |sigs|))
  {
    var x :| x in Union(sigs) && x !in covered;
    UnionMember(sigs, x);
    var i :| 0 <= i < |sigs| && x in sigs[i];
    BestOfIsBest(sigs, covered, |sigs|);
    assert sigs[..|sigs|] == sigs;
    assert x in sigs[i] - covered;
  }

  lemma AtWithin<T>(sigs: seq<set<T>>, i: nat)
    requires i < |sigs|
    ensures sigs[i] <= Union(sigs)
  {
    forall x <- sigs[i] ensures x in Union(sigs) { UnionMember(sigs, x); }
  }

  /** One round: what is left shrinks by exactly the best gain. */
  lemma RoundShrinks<T>(sigs: seq<set<T>>, covered: set<T>)
    requires covered < Union(sigs)
    ensures var b := BestOf(sigs, covered, |sigs|);
      && covered + sigs[b] <= Union(sigs)
      && |Union(sigs) - (covered + sigs[b])| == |Union(sigs) - covered| - Gain(sigs[b], covered)
      && Gain(sigs[b], covered) > 0
  {
    BestGains(sigs, covered);
    var b := BestOf(sigs, covered, |sigs|);
    AtWithin(sigs, b);
    assert Union(sigs) - covered == (Union(sigs) - (covered + sigs[b])) + (sigs[b] - covered);
  }

  /** The recordings picked, in the order the rounds pick them. */
  function Greedy<T>(sigs: seq<set<T>>, covered: set<T>): seq<nat>
    requires covered <= Union(sigs)
    decreases |Union(sigs) - covered|
  {
    if covered == Union(sigs) then []
    else
      RoundShrinks(sigs, covered);
      var b := BestOf(sigs, covered, |sigs|);
      [b] + Greedy(sigs, covered + sigs[b])
  }

  /** Labels of the picked recordings, in input order. */
  function Labels(names: seq<string>, picked: set<nat>, n: nat): seq<string>
    requires n <= |names|
  {
    if n == 0 then []
    else Labels(names, picked, n - 1) + if n - 1 in picked then [names[n - 1]] else []
  }

  function Elements(s: seq<nat>): set<nat> {
    set i | i in s
  }

  // ---------------------------------------------------------------- the program

  /** Counting a gain signal by signal. */
  method CountGain<T(==)>(sig: set<T>, covered: set<T>) returns (gain: nat)
    ensures gain == Gain(sig, covered)
  {
    gain := 0;
    var rest := sig;
    while rest != {}
      invariant rest <= sig && gain + |rest - covered| == |sig - covered|
      decreases rest
    {
      var k :| k in rest;
      if k !in covered {
        assert rest - covered == (rest - {k} - covered) + {k};
        gain := gain + 1;
      } else {
        assert rest - covered == rest - {k} - covered;
      }
      rest := rest - {k};
    }
  }

  /** The scan after i recordings: no gain so far, or the best so far, an unused one. */
  predicate Scanned<T>(sigs: seq<set<T>>, covered: set<T>, used: seq<bool>, i: nat, best: int, bestGain: nat) {
    && i <= |sigs| == |used| && -1 <= best < i
    && (best == -1 ==> bestGain == 0 && forall k | 0 <= k < i :: Gain(sigs[k], covered) == 0)
    && (best >= 0 ==> best == BestOf(sigs, covered, i) && bestGain == Gain(sigs[best], covered) > 0 && !used[best])
  }

  lemma ScanStep<T>(sigs: seq<set<T>>, covered: set<T>, used: seq<bool>, i: nat, best: int, bestGain: nat)
    requires Scanned(sigs, covered, used, i, best, bestGain) && i < |sigs| && UsedCovered(sigs, used, covered)
    ensures var gain := Gain(sigs[i], covered);
      && (used[i] ==> gain == 0)
      && (gain > bestGain ==> Scanned(sigs, covered, used, i + 1, i, gain))
      && (gain <= bestGain ==> Scanned(sigs, covered, used, i + 1, best, bestGain))
  {
    if used[i] { assert sigs[i] - covered == {}; }
    if Gain(sigs[i], covered) > bestGain && best == -1 { NoGainBefore(sigs, covered, i); }
  }

  /** One scan for the unused recording of greatest positive gain; -1 when there is none. */
  method FindBest<T(==)>(sigs: seq<set<T>>, covered: set<T>, used: seq<bool>) returns (best: int)
    requires UsedCovered(sigs, used, covered) && covered < Union(sigs)
    ensures best == BestOf(sigs, covered, |sigs|) && !used[best]
  {
    best := -1;
    var bestGain, i := 0, 0;
    while i < |sigs|
      invariant Scanned(sigs, covered, used, i, best, bestGain)
    {
      ScanStep(sigs, covered, used, i, best, bestGain);
      if !used[i] {
        var gain := CountGain(sigs[i], covered);
        if gain > bestGain {
          best, bestGain := i, gain;
        }
      }
      i := i + 1;
    }
    BestGains(sigs, covered);
  }

  lemma {:induction false} NoGainBefore<T>(sigs: seq<set<T>>, covered: set<T>, i: nat)
    requires i < |sigs| && Gain(sigs[i], covered) > 0 && forall k | 0 <= k < i :: Gain(sigs[k], covered) == 0
    ensures BestOf(sigs, covered, i + 1) == i
  {
  }

  method KeepInOrder(names: seq<string>, kept: set<nat>) returns (out: seq<string>)
    ensures out == Labels(names, kept, |names|)
  {
    out := [];
    var i := 0;
    while i < |names|
      invariant 0 <= i <= |names| && out == Labels(names, kept, i)
    {
      if i in kept { out := out + [names[i]]; }
      i := i + 1;
    }
  }

  method Universe<T(==)>(sigs: seq<set<T>>) returns (universe: set<T>)
    ensures universe == Union(sigs)
  {
    universe := {};
    var i := 0;
    while i < |sigs|
      invariant 0 <= i <= |sigs| && Union(sigs) == universe + Union(sigs[i..])
    {
      assert sigs[i..][1..] == sigs[i + 1..];
      universe := universe + sigs[i];
      i := i + 1;
    }
  }

  method Shrink<T(==)>(names: seq<string>, sigs: seq<set<T>>) returns (kept: seq<string>)
    requires |names| == |sigs|
    ensures kept == Labels(names, Elements(Greedy(sigs, {})), |names|)
  {
    var universe := Universe(sigs);
    var covered: set<T>, keptIdx: set<nat> := {}, {};
    var used := seq(|sigs|, _ => false);
    ghost var picks: seq<nat> := [];
    while |covered| < |universe|
      invariant covered <= universe && UsedCovered(sigs, used, covered)
      invariant Greedy(sigs, {}) == picks + Greedy(sigs, covered) && keptIdx == Elements(picks)
      decreases |universe - covered|
    {
      var found := FindBest(sigs, covered, used);
      var best: nat := found;
      GreedyStep(sigs, covered);
      UseOne(sigs, used, covered, best);
      Assoc(picks, [best], Greedy(sigs, covered + sigs[best]));
      ElementsSnoc(picks, best);
      picks := picks + [best];
      used := used[best := true];
      keptIdx := keptIdx + {best};
      covered := covered + sigs[best];
    }
    SubsetSize(covered, universe);
    assert picks + [] == picks;
    kept := KeepInOrder(names, keptIdx);
  }

  lemma ElementsSnoc(s: seq<nat>, x: nat)
    ensures Elements(s + [x]) == Elements(s) + {x}
  {
  }

  predicate UsedCovered<T>(sigs: seq<set<T>>, used: seq<bool>, covered: set<T>) {
    |used| == |sigs| && forall i | 0 <= i < |sigs| && used[i] :: sigs[i] <= covered
  }

  lemma UseOne<T>(sigs: seq<set<T>>, used: seq<bool>, covered: set<T>, best: nat)
    requires UsedCovered(sigs, used, covered) && best < |sigs|
    ensures UsedCovered(sigs, used[best := true], covered + sigs[best])
  {
  }

  lemma GreedyStep<T>(sigs: seq<set<T>>, covered: set<T>)
    requires covered < Union(sigs)
    ensures var b := BestOf(sigs, covered, |sigs|); var next := covered + sigs[b];
      && next <= Union(sigs) && |Union(sigs) - next| < |Union(sigs) - covered|
      && Greedy(sigs, covered) == [b] + Greedy(sigs, next)
  {
    RoundShrinks(sigs, covered);
  }

  // ---------------------------------------------------------------- what the picks cover

  predicate InRange<T>(sigs: seq<set<T>>, picks: seq<nat>) {
    forall k | 0 <= k < |picks| :: picks[k] < |sigs|
  }

  function Covered<T>(sigs: seq<set<T>>, picks: seq<nat>): set<T>
    requires InRange(sigs, picks)
  {
    if picks == [] then {} else sigs[picks[0]] + Covered(sigs, picks[1..])
  }

  lemma {:induction false} GreedyInRange<T>(sigs: seq<set<T>>, covered: set<T>)
    requires covered <= Union(sigs)
    ensures InRange(sigs, Greedy(sigs, covered))
    decreases |Union(sigs) - covered|
  {
    if covered != Union(sigs) {
      RoundShrinks(sigs, covered);
      var b := BestOf(sigs, covered, |sigs|);
      GreedyInRange(sigs, covered + sigs[b]);
    }
  }

  /** The picks cover every signal of the corpus, and each one adds something new. */
  lemma {:induction false} GreedyCovers<T>(sigs: seq<set<T>>, covered: set<T>)
    requires covered <= Union(sigs)
    ensures InRange(sigs, Greedy(sigs, covered))
    ensures covered + Covered(sigs, Greedy(sigs, covered)) == Union(sigs)
    ensures |Greedy(sigs, covered)| <= |Union(sigs) - covered|
    decreases |Union(sigs) - covered|
  {
    GreedyInRange(sigs, covered);
    if covered != Union(sigs) {
      RoundShrinks(sigs, covered);
      var b := BestOf(sigs, covered, |sigs|);
      GreedyCovers(sigs, covered + sigs[b]);
      assert Greedy(sigs, covered)[1..] == Greedy(sigs, covered + sigs[b]);
    }
  }

  // ---------------------------------------------------------------- the greedy bound

  /** Some recording of the family has the signal. */
  predicate Hit<T>(sigs: seq<set<T>>, c: set<nat>, x: T) {
    exists i <- c :: i < |sigs| && x in sigs[i]
  }

  predicate IsCover<T>(sigs: seq<set<T>>, c: set<nat>) {
    (forall i <- c :: i < |sigs|) && (forall x <- Union(sigs) :: Hit(sigs, c, x))
  }

  lemma HitWithout<T>(sigs: seq<set<T>>, c: set<nat>, i: nat, x: T)
    requires Hit(sigs, c, x) && i < |sigs| && x !in sigs[i]
    ensures Hit(sigs, c - {i}, x)
  {
    var j :| j in c && j < |sigs| && x in sigs[j];
    assert j in c - {i};
  }

  function Times(n: nat, g: nat): nat {
    if n == 0 then 0 else Times(n - 1, g) + g
  }

  lemma {:induction false} TimesIsProduct(n: nat, g: nat)
    ensures Times(n, g) == n * g
  {
    if n > 0 { TimesIsProduct(n - 1, g); }
  }

  lemma NoFamily<T>(sigs: seq<set<T>>, left: set<T>)
    requires forall x <- left :: Hit(sigs, {}, x)
    ensures left == {}
  {
  }

  lemma OneShare<T>(left: set<T>, sig: set<T>, covered: set<T>)
    requires left !! covered
    ensures |left| <= |left - sig| + |sig - covered|
  {
    SubsetSize(left * sig, sig - covered);
    assert left == (left * sig) + (left - sig);
  }

  /** What a family of recordings adds is at most their number times the greatest gain. */
  lemma {:induction false} FamilyGain<T>(sigs: seq<set<T>>, covered: set<T>, c: set<nat>, left: set<T>, g: nat)
    requires forall i <- c :: i < |sigs| && Gain(sigs[i], covered) <= g
    requires forall x <- left :: x !in covered && Hit(sigs, c, x)
    ensures |left| <= Times(|c|, g)
    decreases c
  {
    if c == {} {
      NoFamily(sigs, left);
    } else {
      var i :| i in c;
      var rest := left - sigs[i];
      forall x <- rest ensures x !in covered && Hit(sigs, c - {i}, x) { HitWithout(sigs, c, i, x); }
      FamilyGain(sigs, covered, c - {i}, rest, g);
      OneShare(left, sigs[i], covered);
      assert |c| == |c - {i}| + 1;
    }
  }

  /** One round against k recordings that cover: k times what is left after is at most k - 1 times
      what was left before. */
  predicate RoundBounded(k: nat, before: nat, after: nat) {
    k >= 1 && k * after <= (k - 1) * before
  }

  lemma RoundArithmetic(k: nat, left: nat, g: nat)
    requires 0 < left <= Times(k, g) && g <= left
    ensures RoundBounded(k, left, left - g)
  {
    TimesIsProduct(k, g);
    assert k * (left - g) == k * left - k * g;
    assert (k - 1) * left == k * left - left;
  }

  lemma RoundBound<T>(sigs: seq<set<T>>, covered: set<T>, c: set<nat>)
    requires covered < Union(sigs) && IsCover(sigs, c)
    ensures var next := covered + sigs[BestOf(sigs, covered, |sigs|)];
      RoundBounded(|c|, Uncovered(sigs, covered), Uncovered(sigs, next))
  {
    RoundShrinks(sigs, covered);
    BestGains(sigs, covered);
    var g := Gain(sigs[BestOf(sigs, covered, |sigs|)], covered);
    var left := Union(sigs) - covered;
    FamilyGain(sigs, covered, c, left, g);
    RoundArithmetic(|c|, |left|, g);
  }

  function Pow(b: nat, n: nat): nat {
    if n == 0 then 1 else b * Pow(b, n - 1)
  }

  function Pred(k: nat): nat {
    if k == 0 then 0 else k - 1
  }

  function Uncovered<T>(sigs: seq<set<T>>, covered: set<T>): nat {
    |Union(sigs) - covered|
  }

  /** What is still uncovered after t rounds. */
  function Left<T>(sigs: seq<set<T>>, covered: set<T>, t: nat): nat
    requires covered <= Union(sigs) && t <= |Greedy(sigs, covered)|
    decreases t
  {
    if t == 0 then Uncovered(sigs, covered)
    else
      RoundShrinks(sigs, covered);
      Left(sigs, covered + sigs[BestOf(sigs, covered, |sigs|)], t - 1)
  }

  /** After t rounds: uncovered * k^t <= total * (k-1)^t. */
  predicate Bounded(k: nat, total: nat, uncovered: nat, t: nat) {
    uncovered * Pow(k, t) <= total * Pow(Pred(k), t)
  }

  lemma BoundStep(k: nat, total: nat, now: nat, next: nat, t: nat)
    requires Bounded(k, total, now, t) && RoundBounded(k, now, next)
    ensures Bounded(k, total, next, t + 1)
  {
    var p, q := Pow(k, t), Pow(Pred(k), t);
    MulMono(p, k * next, (k - 1) * now);
    MulMono(k - 1, now * p, total * q);
    Regroup(next, k, p);
    Regroup(now, k - 1, p);
    Regroup(total, k - 1, q);
  }

  lemma Regroup(a: nat, b: nat, c: nat)
    ensures a * (b * c) == c * (b * a) == b * (a * c)
  {
    assert a * (b * c) == (a * b) * c;
  }

  lemma MulMono(k: nat, a: int, b: int)
    requires a <= b
    ensures k * a <= k * b
  {
  }

  lemma LeftStep<T>(sigs: seq<set<T>>, covered: set<T>, t: nat)
    requires covered <= Union(sigs) && 0 < t <= |Greedy(sigs, covered)|
    ensures covered < Union(sigs)
    ensures var next := covered + sigs[BestOf(sigs, covered, |sigs|)];
      && next <= Union(sigs) && t - 1 <= |Greedy(sigs, next)| && Left(sigs, covered, t) == Left(sigs, next, t - 1)
  {
    GreedyStep(sigs, covered);
  }

  /** The state the rounds have reached after t of them. */
  lemma {:induction false} RoundAt<T>(sigs: seq<set<T>>, covered: set<T>, t: nat) returns (now: set<T>)
    requires covered <= Union(sigs) && t < |Greedy(sigs, covered)|
    ensures now < Union(sigs) && Left(sigs, covered, t) == Uncovered(sigs, now)
    ensures Left(sigs, covered, t + 1) == Uncovered(sigs, now + sigs[BestOf(sigs, now, |sigs|)])
    decreases t
  {
    LeftStep(sigs, covered, t + 1);
    if t == 0 {
      now := covered;
    } else {
      LeftStep(sigs, covered, t);
      now := RoundAt(sigs, covered + sigs[BestOf(sigs, covered, |sigs|)], t - 1);
    }
  }

  lemma LeftRound<T>(sigs: seq<set<T>>, covered: set<T>, c: set<nat>, t: nat)
    requires covered <= Union(sigs) && IsCover(sigs, c) && t < |Greedy(sigs, covered)|
    ensures RoundBounded(|c|, Left(sigs, covered, t), Left(sigs, covered, t + 1))
  {
    var now := RoundAt(sigs, covered, t);
    RoundBound(sigs, now, c);
  }

  /** The set-cover bound: against any cover of size k, after t rounds
      uncovered * k^t <= total * (k-1)^t. */
  lemma {:induction false} GreedyBound<T>(sigs: seq<set<T>>, covered: set<T>, c: set<nat>, t: nat)
    requires covered <= Union(sigs) && IsCover(sigs, c) && t <= |Greedy(sigs, covered)|
    ensures Bounded(|c|, Uncovered(sigs, covered), Left(sigs, covered, t), t)
    decreases t
  {
    if t > 0 {
      GreedyBound(sigs, covered, c, t - 1);
      LeftRound(sigs, covered, c, t - 1);
      BoundStep(|c|, Uncovered(sigs, covered), Left(sigs, covered, t - 1), Left(sigs, covered, t), t - 1);
    }
  }

  lemma {:induction false} LeftPositive<T>(sigs: seq<set<T>>, covered: set<T>, t: nat)
    requires covered <= Union(sigs) && t < |Greedy(sigs, covered)|
    ensures Left(sigs, covered, t) > 0
    decreases t
  {
    RoundShrinks(sigs, covered);
    if t > 0 {
      LeftPositive(sigs, covered + sigs[BestOf(sigs, covered, |sigs|)], t - 1);
    } else {
      assert Union(sigs) - covered != {};
    }
  }

  /** Read as a count: once total * (k-1)^t < k^t, at most t recordings are kept. */
  lemma KeptAtMost<T>(sigs: seq<set<T>>, c: set<nat>, t: nat)
    requires IsCover(sigs, c) && |Union(sigs)| * Pow(Pred(|c|), t) < Pow(|c|, t)
    ensures |Greedy(sigs, {})| <= t
  {
    assert Union(sigs) - {} == Union(sigs);
    if |Greedy(sigs, {})| > t {
      GreedyBound(sigs, {}, c, t);
      LeftPositive(sigs, {}, t);
      MulMono(Pow(|c|, t), 1, Left(sigs, {}, t));
    }
  }

  // ---------------------------------------------------------------- not minimal

  const REDUNDANT: seq<set<int>> := [{2, 3, 5, 6}, {1, 2, 3}, {4, 5, 6}]

  lemma BestOfThree<T>(sigs: seq<set<T>>, covered: set<T>)
    requires |sigs| == 3
    ensures var x, y, z := Gain(sigs[0], covered), Gain(sigs[1], covered), Gain(sigs[2], covered);
      BestOf(sigs, covered, 3) == if y > x then (if z > y then 2 else 1) else if z > x then 2 else 0
  {
    assert BestOf(sigs, covered, 1) == 0;
    assert BestOf(sigs, covered, 2) == if Gain(sigs[1], covered) > Gain(sigs[0], covered) then 1 else 0;
  }

  lemma RedundantGains(sigs: seq<set<int>>)
    requires sigs == REDUNDANT
    ensures BestOf(sigs, {}, 3) == 0
    ensures BestOf(sigs, {2, 3, 5, 6}, 3) == 1
    ensures BestOf(sigs, {1, 2, 3, 5, 6}, 3) == 2
  {
    var a, b, c: set<int> := sigs[0], sigs[1], sigs[2];
    BestOfThree(sigs, {});
    BestOfThree(sigs, a);
    BestOfThree(sigs, {1, 2, 3, 5, 6});
    FirstGains(a, b, c);
    LaterGains(a, b, c);
  }

  lemma FirstGains(a: set<int>, b: set<int>, c: set<int>)
    requires a == {2, 3, 5, 6} && b == {1, 2, 3} && c == {4, 5, 6}
    ensures Gain(a, {}) == 4 && Gain(b, {}) == 3 && Gain(c, {}) == 3
  {
    assert a - {} == a && b - {} == b && c - {} == c;
  }

  lemma LaterGains(a: set<int>, b: set<int>, c: set<int>)
    requires a == {2, 3, 5, 6} && b == {1, 2, 3} && c == {4, 5, 6}
    ensures Gain(a, a) == 0 && Gain(b, a) == 1 && Gain(c, a) == 1
    ensures var d := {1, 2, 3, 5, 6}; Gain(a, d) == 0 && Gain(b, d) == 0 && Gain(c, d) == 1
  {
    var d := {1, 2, 3, 5, 6};
    assert a - a == {} && b - a == {1} && c - a == {4};
    assert a - d == {} && b - d == {} && c - d == {4};
  }

  lemma RedundantUnion()
    ensures Union(REDUNDANT) == {1, 2, 3, 4, 5, 6}
  {
    assert REDUNDANT[1..] == [{1, 2, 3}, {4, 5, 6}] && REDUNDANT[1..][1..] == [{4, 5, 6}];
    assert REDUNDANT[1..][1..][1..] == [];
    assert Union<int>([]) == {} && Union(REDUNDANT[1..][1..]) == {4, 5, 6};
  }

  lemma GreedyPicks<T>(sigs: seq<set<T>>, covered: set<T>, b: nat, next: set<T>, rest: seq<nat>)
    requires covered < Union(sigs) && b == BestOf(sigs, covered, |sigs|) && next == covered + sigs[b] <= Union(sigs)
    requires Greedy(sigs, next) == rest
    ensures Greedy(sigs, covered) == [b] + rest
  {
  }

  lemma RedundantPicks(sigs: seq<set<int>>, a: set<int>, d: set<int>, all: set<int>)
    requires |sigs| == 3 && Union(sigs) == all && a < d < all
    requires {} + sigs[0] == a && a + sigs[1] == d && d + sigs[2] == all
    requires BestOf(sigs, {}, 3) == 0 && BestOf(sigs, a, 3) == 1 && BestOf(sigs, d, 3) == 2
    ensures Greedy(sigs, {}) == [0] + ([1] + [2])
  {
    assert [2] + [] == [2];
    GreedyPicks(sigs, d, 2, all, []);
    GreedyPicks(sigs, a, 1, d, [2]);
    GreedyPicks(sigs, {}, 0, a, [1] + [2]);
  }

  lemma Growing(a: set<int>, b: set<int>, c: set<int>)
    requires a == {2, 3, 5, 6} && b == {1, 2, 3} && c == {4, 5, 6}
    ensures var d, all: set<int> := {1, 2, 3, 5, 6}, {1, 2, 3, 4, 5, 6};
      a < d < all && {} + a == a && a + b == d && d + c == all
  {
    var d, all: set<int> := {1, 2, 3, 5, 6}, {1, 2, 3, 4, 5, 6};
    assert 1 in d && 4 in all && 1 !in a && 4 !in d;
  }

  lemma LastTwoCover(sigs: seq<set<int>>)
    requires |sigs| == 3 && sigs[1] == {1, 2, 3} && sigs[2] == {4, 5, 6} && Union(sigs) == {1, 2, 3, 4, 5, 6}
    ensures IsCover(sigs, {1, 2})
  {
    assert 1 in {1, 2} && 2 in {1, 2};
    forall x <- Union(sigs) ensures Hit(sigs, {1, 2}, x) {
      assert x in sigs[1] || x in sigs[2];
    }
  }

  lemma Three<T>(a: T, b: T, c: T)
    ensures [a] + ([b] + [c]) == [a, b, c]
  {
  }

  /** The kept set is called minimal but need not be: here all three recordings are kept although the
      last two already cover everything. */
  lemma KeepsRedundant(sigs: seq<set<int>>)
    requires sigs == REDUNDANT
    ensures Greedy(sigs, {}) == [0, 1, 2] && IsCover(sigs, {1, 2})
  {
    RedundantUnion();
    RedundantGains(sigs);
    Growing(sigs[0], sigs[1], sigs[2]);
    RedundantPicks(sigs, {2, 3, 5, 6}, {1, 2, 3, 5, 6}, {1, 2, 3, 4, 5, 6});
    LastTwoCover(sigs);
    Three<nat>(0, 1, 2);
  }
}
