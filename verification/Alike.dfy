/** When two lists of answers replay alike. */
module Alike {
  import opened Lists
  import opened Options
  import opened Replay

  /** The i-th answer from a list of recorded ones. */
  function Reply<T>(replies: seq<T>, i: nat, policy: Policy): Option<T> {
    if replies == [] then None
    else if i < |replies| then Some(replies[i])
    else match policy
      case RepeatLast => Some(replies[|replies| - 1])
      case Cycle => Some(replies[i % |replies|])
      case Fail => None
  }

  ghost predicate SameAnswers<T(!new)>(a: seq<T>, b: seq<T>, policy: Policy) {
    forall i: nat :: Reply(a, i, policy) == Reply(b, i, policy)
  }

  /** The list without repetitions of its last entry. */
  function Trim<T(==)>(a: seq<T>): (r: seq<T>)
    ensures r <= a && (a != [] ==> r != [])
  {
    if |a| >= 2 && a[|a| - 1] == a[|a| - 2] then Trim(a[..|a| - 1]) else a
  }

  /** The same answers for good: equal lists when over-consumption fails, equal up to a repeated last entry
      when the last entry is repeated, and words that commute, so that both are rounds of one word, when
      the list is gone through again. */
  predicate SameUnder<T(==)>(a: seq<T>, b: seq<T>, policy: Policy) {
    match policy
    case Fail => a == b
    case RepeatLast => Trim(a) == Trim(b)
    case Cycle => (a == [] <==> b == []) && a + b == b + a
  }

  // ---------------------------------------------------------------- the failing policy

  lemma FailDecides<T(!new)>(a: seq<T>, b: seq<T>)
    requires SameAnswers(a, b, Fail)
    ensures a == b
  {
    assert Reply(a, |a|, Fail) == None == Reply(b, |a|, Fail);
    assert Reply(b, |b|, Fail) == None == Reply(a, |b|, Fail);
    forall t: nat | t < |a| ensures t < |b| && a[t] == b[t] {
      assert Reply(a, t, Fail) == Reply(b, t, Fail);
    }
  }

  // ---------------------------------------------------------------- the repeating policy

  lemma {:induction false} TrimReplies<T>(a: seq<T>, i: nat)
    ensures Reply(Trim(a), i, RepeatLast) == Reply(a, i, RepeatLast)
  {
    if |a| >= 2 && a[|a| - 1] == a[|a| - 2] { TrimReplies(a[..|a| - 1], i); }
  }

  predicate Trimmed<T(==)>(a: seq<T>) {
    |a| >= 2 ==> a[|a| - 1] != a[|a| - 2]
  }

  lemma {:induction false} TrimIsTrimmed<T>(a: seq<T>)
    ensures Trimmed(Trim(a))
  {
    if |a| >= 2 && a[|a| - 1] == a[|a| - 2] { TrimIsTrimmed(a[..|a| - 1]); }
  }

  lemma NotLonger<T(!new)>(a: seq<T>, b: seq<T>)
    requires Trimmed(b) && SameAnswers(a, b, RepeatLast)
    ensures |b| <= |a|
  {
    assert Reply(a, 0, RepeatLast) == Reply(b, 0, RepeatLast);
    if |b| >= 2 {
      assert Reply(a, |b| - 1, RepeatLast) == Reply(b, |b| - 1, RepeatLast);
      assert Reply(a, |b| - 2, RepeatLast) == Reply(b, |b| - 2, RepeatLast);
    }
  }

  lemma TrimmedDecide<T(!new)>(a: seq<T>, b: seq<T>)
    requires Trimmed(a) && Trimmed(b) && SameAnswers(a, b, RepeatLast)
    ensures a == b
  {
    NotLonger(a, b);
    NotLonger(b, a);
    forall t: nat | t < |a| ensures a[t] == b[t] {
      assert Reply(a, t, RepeatLast) == Reply(b, t, RepeatLast);
    }
  }

  lemma RepeatLastDecides<T(!new)>(a: seq<T>, b: seq<T>)
    ensures SameAnswers(a, b, RepeatLast) <==> Trim(a) == Trim(b)
  {
    forall i: nat
      ensures Reply(Trim(a), i, RepeatLast) == Reply(a, i, RepeatLast)
      ensures Reply(Trim(b), i, RepeatLast) == Reply(b, i, RepeatLast)
    {
      TrimReplies(a, i);
      TrimReplies(b, i);
    }
    if SameAnswers(a, b, RepeatLast) {
      TrimIsTrimmed(a);
      TrimIsTrimmed(b);
      forall i: nat ensures Reply(Trim(a), i, RepeatLast) == Reply(Trim(b), i, RepeatLast) {
        assert Reply(a, i, RepeatLast) == Reply(b, i, RepeatLast);
      }
      TrimmedDecide(Trim(a), Trim(b));
    }
    if Trim(a) == Trim(b) {
      forall i: nat ensures Reply(a, i, RepeatLast) == Reply(b, i, RepeatLast) {
        assert Reply(Trim(a), i, RepeatLast) == Reply(a, i, RepeatLast);
        assert Reply(Trim(b), i, RepeatLast) == Reply(b, i, RepeatLast);
      }
    }
  }

  // ---------------------------------------------------------------- the cycling policy

  /** The entry at place i when the word is gone through again and again. */
  function Round<T>(a: seq<T>, i: nat): T
    requires a != []
  {
    a[i % |a|]
  }

  lemma Remainder(x: nat, n: nat, q: nat, r: nat)
    requires n > 0 && r < n && x == q * n + r
    ensures x % n == r
  {
    var q', r' := x / n, x % n;
    assert (q' - q) * n == r - r';
    if q' > q { Multiple(q' - q, n); }
    if q > q' { Multiple(q - q', n); }
  }

  lemma Multiple(k: nat, n: nat)
    requires k >= 1
    ensures k * n >= n
  {
  }

  lemma ModStep(i: nat, n: nat)
    requires n > 0
    ensures (i + n) % n == i % n && (i < n ==> i % n == i) && i % n < n
  {
    Remainder(i + n, n, i / n + 1, i % n);
    if i < n { Remainder(i, n, 0, i); }
  }

  lemma CycleReply<T>(a: seq<T>, i: nat)
    requires a != []
    ensures Reply(a, i, Cycle) == Some(Round(a, i))
  {
    if i < |a| { ModStep(i, |a|); }
  }

  lemma AlikeCommutes<T(!new)>(a: seq<T>, b: seq<T>)
    requires a != [] && b != [] && forall i: nat :: Round(a, i) == Round(b, i)
    ensures a + b == b + a
  {
    forall i: nat | i < |a| + |b| ensures (a + b)[i] == (b + a)[i] {
      assert Round(a, i) == Round(b, i);
      WordAt(a, b, i);
      WordAt(b, a, i);
    }
  }

  lemma WordAt<T(!new)>(a: seq<T>, b: seq<T>, i: nat)
    requires a != [] && b != [] && i < |a| + |b| && forall k: nat :: Round(a, k) == Round(b, k)
    ensures (a + b)[i] == Round(a, i)
  {
    if i < |a| {
      ModStep(i, |a|);
    } else {
      ModStep(i - |a|, |a|);
      ModStep(i - |a|, |b|);
      assert Round(a, i - |a|) == Round(b, i - |a|) == b[i - |a|];
    }
  }

  /** The word n times over. */
  function Power<T>(a: seq<T>, n: nat): (r: seq<T>)
    ensures |r| >= n || a == []
  {
    if n == 0 then [] else a + Power(a, n - 1)
  }

  lemma {:induction false} PowerAt<T>(a: seq<T>, n: nat, i: nat)
    requires a != [] && i < |Power(a, n)|
    ensures Power(a, n)[i] == Round(a, i)
  {
    if i < |a| {
      ModStep(i, |a|);
    } else {
      PowerAt(a, n - 1, i - |a|);
      ModStep(i - |a|, |a|);
    }
  }

  lemma {:induction false} PowerCommutes<T>(a: seq<T>, b: seq<T>, n: nat)
    requires a + b == b + a
    ensures Power(a, n) + b == b + Power(a, n)
  {
    if n == 0 {
      assert [] + b == b + [];
    } else {
      PowerCommutes(a, b, n - 1);
      var p := Power(a, n - 1);
      Assoc(a, p, b);
      Assoc(a, b, p);
      Assoc(b, a, p);
    }
  }

  /** A word commuting with a begins with the rounds of a, and those rounds repeat after it. */
  lemma CommutingRounds<T>(a: seq<T>, b: seq<T>, i: nat)
    requires a != [] && b != [] && a + b == b + a
    ensures i < |b| ==> b[i] == Round(a, i)
    ensures Round(a, i + |b|) == Round(a, i)
  {
    var n := i + |b| + 1;
    var p := Power(a, n);
    PowerCommutes(a, b, n);
    PowerAt(a, n, i);
    PowerAt(a, n, i + |b|);
    assert (p + b)[i] == p[i] && (p + b)[i + |b|] == p[i + |b|];
    assert (b + p)[i + |b|] == p[i];
    assert i < |b| ==> (b + p)[i] == b[i];
  }

  lemma {:induction false} CommutingAlike<T>(a: seq<T>, b: seq<T>, i: nat)
    requires a != [] && b != [] && a + b == b + a
    ensures Round(a, i) == Round(b, i)
    decreases i
  {
    if i < |b| {
      CommutingRounds(a, b, i);
      ModStep(i, |b|);
    } else {
      CommutingAlike(a, b, i - |b|);
      CommutingRounds(a, b, i - |b|);
      ModStep(i - |b|, |b|);
    }
  }

  lemma CycleDecides<T(!new)>(a: seq<T>, b: seq<T>)
    ensures SameAnswers(a, b, Cycle) <==> SameUnder(a, b, Cycle)
  {
    if a == [] || b == [] {
      assert Reply(a, 0, Cycle).None? <==> a == [];
      assert Reply(b, 0, Cycle).None? <==> b == [];
      assert a + [] == a && [] + a == a && b + [] == b && [] + b == b;
    } else {
      forall i: nat ensures Reply(a, i, Cycle) == Some(Round(a, i)) && Reply(b, i, Cycle) == Some(Round(b, i)) {
        CycleReply(a, i);
        CycleReply(b, i);
      }
      if SameAnswers(a, b, Cycle) {
        forall i: nat ensures Round(a, i) == Round(b, i) {
          assert Reply(a, i, Cycle) == Reply(b, i, Cycle);
        }
        AlikeCommutes(a, b);
      }
      if SameUnder(a, b, Cycle) {
        forall i: nat ensures Reply(a, i, Cycle) == Reply(b, i, Cycle) { CommutingAlike(a, b, i); }
      }
    }
  }

  /** For every policy: which lists of recorded answers can never be told apart. */
  lemma AlikeIff<T(!new)>(a: seq<T>, b: seq<T>, policy: Policy)
    ensures SameAnswers(a, b, policy) <==> SameUnder(a, b, policy)
  {
    match policy
    case Fail => if SameAnswers(a, b, Fail) { FailDecides(a, b); }
    case RepeatLast => RepeatLastDecides(a, b);
    case Cycle => CycleDecides(a, b);
  }

  predicate AllDiffer<T(==)>(a: seq<T>) {
    forall i, j | 0 <= i < j < |a| :: a[i] != a[j]
  }

  /** A word of different entries commutes only with repetitions of itself. */
  lemma {:induction false} DistinctCommutes<T(!new)>(a: seq<T>, b: seq<T>)
    requires a != [] && AllDiffer(a)
    ensures a + b == b + a <==> exists n: nat :: b == Power(a, n)
    decreases |b|
  {
    if b == [] {
      assert a + [] == a && [] + a == a;
      assert b == Power(a, 0);
    } else if a + b == b + a {
      CommutingPrefix(a, b);
      var rest := b[|a|..];
      assert b == a + rest;
      Assoc(a, rest, a);
      assert (a + (a + rest))[|a|..] == a + rest && (a + (rest + a))[|a|..] == rest + a;
      DistinctCommutes(a, rest);
      var n: nat :| rest == Power(a, n);
      assert b == Power(a, n + 1);
    } else if exists n: nat :: b == Power(a, n) {
      var n: nat :| b == Power(a, n);
      PowerCommutes(a, a, n);
    }
  }

  lemma CommutingPrefix<T(!new)>(a: seq<T>, b: seq<T>)
    requires a != [] && b != [] && a + b == b + a && AllDiffer(a)
    ensures |a| <= |b| && b[..|a|] == a
  {
    if |b| < |a| {
      ShortCommutes(a, b);
    } else {
      assert (a + b)[..|a|] == a && (b + a)[..|a|] == b[..|a|];
    }
  }

  lemma ShortCommutes<T>(a: seq<T>, b: seq<T>)
    requires |b| < |a| && a + b == b + a
    ensures a[|b|] == a[0]
  {
    assert (a + b)[|b|] == a[|b|] && (b + a)[|b|] == a[0];
  }
}
