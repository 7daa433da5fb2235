/** When a merge replays like what it was made from. */
module MergeReplay {
  import opened Lists
  import opened Options
  import opened Cassettes
  import opened Compose
  import opened Replay
  import opened Alike
  import opened Merge

  function Keyed(key: LogicalKey): KeyFn {
    it => Some(key(it))
  }

  /** An interaction a merge drops: one with a copy before it. */
  predicate Dropped(key: LogicalKey, items: seq<Interaction>, i: nat)
    requires i < |items|
  {
    HasCopy(key, items[..i], items[i])
  }

  predicate NoCopies(key: LogicalKey, items: seq<Interaction>) {
    forall i, j | 0 <= i < j < |items| :: !Copies(key, items[i], items[j])
  }

  /** The response of the last interaction of a key that has no copy before it. */
  function LastNew(key: LogicalKey, items: seq<Interaction>, k: string): Option<Response> {
    if items == [] then None
    else
      var n := |items| - 1;
      if key(items[n]) == k && !HasCopy(key, items[..n], items[n]) then Some(items[n].response)
      else LastNew(key, items[..n], k)
  }

  /** From the first drop of a key on, all its responses are that last new one. */
  predicate DropsRepeat(key: LogicalKey, items: seq<Interaction>) {
    forall i, j | 0 <= i <= j < |items| && key(items[i]) == key(items[j]) && Dropped(key, items, i) ::
      Some(items[j].response) == LastNew(key, items, key(items[i]))
  }

  /** For each key, the responses without the drops and all of them are rounds of one word. */
  predicate DropsGoRound(key: LogicalKey, items: seq<Interaction>) {
    forall it <- items ::
      var a, b := Replies(Keyed(key), Firsts(key, items), key(it)), Replies(Keyed(key), items, key(it));
      a + b == b + a
  }

  // ---------------------------------------------------------------- the failing policy

  lemma {:induction false} KeepsAllIff(key: LogicalKey, items: seq<Interaction>)
    ensures Firsts(key, items) == items <==> NoCopies(key, items)
  {
    if Firsts(key, items) == items { FirstsDistinct(key, items); }
    if NoCopies(key, items) && items != [] {
      var n := |items| - 1;
      assert NoCopies(key, items[..n]);
      KeepsAllIff(key, items[..n]);
      assert items == items[..n] + [items[n]];
    }
  }

  // ---------------------------------------------------------------- the replies of one key

  /** How many responses of a key come before its first drop. */
  function Agreeing(key: LogicalKey, items: seq<Interaction>, k: string): nat {
    if items == [] then 0
    else
      var n := |items| - 1;
      var p := Agreeing(key, items[..n], k);
      if key(items[n]) != k || p < |Replies(Keyed(key), items[..n], k)| || HasCopy(key, items[..n], items[n]) then p
      else p + 1
  }

  predicate After<T(==)>(b: seq<T>, i: nat, x: T) {
    exists j :: i < j < |b| && b[j] == x
  }

  lemma AfterGrows<T>(b: seq<T>, i: nat, x: T, y: T)
    requires After(b, i, x) || (i < |b| && x == y)
    ensures After(b + [y], i, x)
  {
    var all := b + [y];
    if After(b, i, x) {
      var j :| i < j < |b| && b[j] == x;
      assert all[j] == x;
    } else {
      assert all[|b|] == x;
    }
  }

  /** The responses a merge keeps: the same up to the first drop, later ones moved forward. */
  predicate Thinned<T(==)>(a: seq<T>, b: seq<T>, p: nat) {
    && p <= |a| <= |b| && a[..p] == b[..p] && (b != [] ==> p > 0) && (p == |b| || |a| < |b|)
    && forall i | p <= i < |a| :: After(b, i, a[i])
  }

  lemma ThinnedKept<T>(a: seq<T>, b: seq<T>, p: nat, x: T)
    requires Thinned(a, b, p)
    ensures p == |b| ==> Thinned(a + [x], b + [x], p + 1)
    ensures p < |b| ==> Thinned(a + [x], b + [x], p)
  {
    var a', b' := a + [x], b + [x];
    if p < |b| {
      forall i | p <= i < |a'| ensures After(b', i, a'[i]) { AfterGrows(b, i, a'[i], x); }
      assert a'[..p] == a[..p] && b'[..p] == b[..p];
    } else {
      assert a == a[..p] && b == b[..p];
    }
  }

  lemma ThinnedDropped<T>(a: seq<T>, b: seq<T>, p: nat, x: T)
    requires Thinned(a, b, p) && b != []
    ensures Thinned(a, b + [x], p)
  {
    forall i | p <= i < |a| ensures After(b + [x], i, a[i]) { AfterGrows(b, i, a[i], x); }
    assert (b + [x])[..p] == b[..p];
  }

  lemma {:induction false} RepliesOfKey(key: LogicalKey, items: seq<Interaction>, i: nat)
    requires i < |items|
    ensures Replies(Keyed(key), items, key(items[i])) != []
  {
    var n := |items| - 1;
    if i < n { RepliesOfKey(key, items[..n], i); }
  }

  /** What the last interaction adds to the recorded and to the kept responses of a key. */
  lemma KeptReplies(key: LogicalKey, items: seq<Interaction>, k: string)
    requires items != []
    ensures var n := |items| - 1; var before := Replies(Keyed(key), items[..n], k);
      Replies(Keyed(key), items, k) == if key(items[n]) == k then before + [items[n].response] else before
    ensures var n := |items| - 1; var before := Replies(Keyed(key), Firsts(key, items[..n]), k);
      Replies(Keyed(key), Firsts(key, items), k)
      == if key(items[n]) == k && !HasCopy(key, items[..n], items[n]) then before + [items[n].response] else before
  {
    var n := |items| - 1;
    var f := Firsts(key, items[..n]);
    RepliesSnoc(Keyed(key), f, items[n], k);
    NothingAdded(f);
    NothingAdded(Replies(Keyed(key), f, k));
    NothingAdded(Replies(Keyed(key), items[..n], k));
  }

  lemma ThinnedNext<T>(a: seq<T>, b: seq<T>, p: nat, x: T, drop: bool)
    requires Thinned(a, b, p) && (drop ==> b != [])
    ensures Thinned(if drop then a else a + [x], b + [x], if drop || p < |b| then p else p + 1)
  {
    if drop { ThinnedDropped(a, b, p, x); } else { ThinnedKept(a, b, p, x); }
  }

  lemma {:induction false} MergeThins(key: LogicalKey, items: seq<Interaction>, k: string)
    ensures Thinned(Replies(Keyed(key), Firsts(key, items), k), Replies(Keyed(key), items, k), Agreeing(key, items, k))
  {
    if items != [] {
      var n := |items| - 1;
      MergeThins(key, items[..n], k);
      KeptReplies(key, items, k);
      if key(items[n]) == k {
        var drop := HasCopy(key, items[..n], items[n]);
        if drop { CopyReplies(key, items[..n], items[n]); }
        ThinnedNext(Replies(Keyed(key), Firsts(key, items[..n]), k), Replies(Keyed(key), items[..n], k),
                    Agreeing(key, items[..n], k), items[n].response, drop);
      }
    }
  }

  lemma CopyReplies(key: LogicalKey, items: seq<Interaction>, it: Interaction)
    requires HasCopy(key, items, it)
    ensures Replies(Keyed(key), items, key(it)) != []
  {
    var i :| 0 <= i < |items| && Copies(key, items[i], it);
    RepliesOfKey(key, items, i);
  }

  // ---------------------------------------------------------------- the repeating policy

  /** Responses thinned out repeat their last one alike exactly when everything from the first drop on is
      that last one. */
  lemma ThinnedRepeats<T(!new)>(a: seq<T>, b: seq<T>, p: nat)
    requires Thinned(a, b, p)
    ensures SameUnder(a, b, RepeatLast) <==> a == [] || AllFrom(b, p, a[|a| - 1])
  {
    AlikeIff(a, b, RepeatLast);
    if SameAnswers(a, b, RepeatLast) && a != [] {
      forall q | p <= q < |b| ensures b[q] == a[|a| - 1] { LastFrom(a, b, p, q); }
    }
    if a != [] && AllFrom(b, p, a[|a| - 1]) {
      forall i: nat ensures Reply(a, i, RepeatLast) == Reply(b, i, RepeatLast) {
        if i < p {
          assert a[i] == a[..p][i] == b[..p][i] == b[i];
        } else {
          assert p == |b| ==> a == a[..p] && b == b[..p];
          if p <= i < |a| {
            var j :| i < j < |b| && b[j] == a[i];
          }
        }
      }
    }
  }

  lemma {:induction false} LastFrom<T(!new)>(a: seq<T>, b: seq<T>, p: nat, q: nat)
    requires Thinned(a, b, p) && b != [] && SameAnswers(a, b, RepeatLast) && p <= q < |b|
    ensures b[q] == a[|a| - 1]
    decreases |b| - q
  {
    assert Reply(a, q, RepeatLast) == Reply(b, q, RepeatLast);
    if q < |a| {
      var j :| q < j < |b| && b[j] == a[q];
      LastFrom(a, b, p, j);
    }
  }

  predicate DropsRepeatOf(key: LogicalKey, items: seq<Interaction>, k: string, last: Response) {
    forall i, j | 0 <= i <= j < |items| && key(items[i]) == key(items[j]) == k && Dropped(key, items, i) ::
      items[j].response == last
  }

  predicate SomeDrop(key: LogicalKey, items: seq<Interaction>, k: string) {
    exists i | 0 <= i < |items| :: key(items[i]) == k && Dropped(key, items, i)
  }

  lemma SomeDropSnoc(key: LogicalKey, items: seq<Interaction>, k: string)
    requires items != []
    ensures var n := |items| - 1;
      SomeDrop(key, items, k) <==> SomeDrop(key, items[..n], k) || (key(items[n]) == k && HasCopy(key, items[..n], items[n]))
  {
    var n := |items| - 1;
    var prev := items[..n];
    forall i | 0 <= i < n ensures prev[i] == items[i] && Dropped(key, prev, i) == Dropped(key, items, i) {
      assert prev[..i] == items[..i];
    }
    if SomeDrop(key, prev, k) {
      var i :| 0 <= i < n && key(prev[i]) == k && Dropped(key, prev, i);
      assert Dropped(key, items, i);
    }
    assert Dropped(key, items, n) == HasCopy(key, prev, items[n]);
  }

  lemma {:induction false} SomeDropIff(key: LogicalKey, items: seq<Interaction>, k: string)
    ensures SomeDrop(key, items, k) <==> Agreeing(key, items, k) < |Replies(Keyed(key), items, k)|
    ensures Agreeing(key, items, k) <= |Replies(Keyed(key), items, k)|
  {
    if items != [] {
      SomeDropIff(key, items[..|items| - 1], k);
      SomeDropSnoc(key, items, k);
    }
  }

  lemma {:induction false} DropsRepeatAt(key: LogicalKey, items: seq<Interaction>, k: string, last: Response)
    ensures DropsRepeatOf(key, items, k, last)
      <==> AllFrom(Replies(Keyed(key), items, k), Agreeing(key, items, k), last)
  {
    if items != [] {
      var n := |items| - 1;
      DropsRepeatAt(key, items[..n], k, last);
      SomeDropIff(key, items[..n], k);
      SomeDropIff(key, items, k);
      DropsRepeatSnoc(key, items, k, last);
      AllFromSnoc(Replies(Keyed(key), items[..n], k), Agreeing(key, items[..n], k), items[n].response, last);
    }
  }

  predicate AllFrom<T(==)>(b: seq<T>, p: nat, last: T) {
    forall q | p <= q < |b| :: b[q] == last
  }

  lemma AllFromSnoc<T>(b: seq<T>, p: nat, x: T, last: T)
    requires p <= |b|
    ensures AllFrom(b + [x], p, last) <==> AllFrom(b, p, last) && x == last
    ensures p == |b| ==> AllFrom(b + [x], p + 1, last)
    ensures b + [] == b
  {
    var all := b + [x];
    assert all[|b|] == x;
    assert forall q | p <= q < |b| :: all[q] == b[q];
  }

  lemma DropsRepeatSnoc(key: LogicalKey, items: seq<Interaction>, k: string, last: Response)
    requires items != []
    ensures var n := |items| - 1;
      DropsRepeatOf(key, items, k, last)
      <==> DropsRepeatOf(key, items[..n], k, last)
           && (key(items[n]) == k && SomeDrop(key, items, k) ==> items[n].response == last)
  {
    var n := |items| - 1;
    var prev := items[..n];
    forall i | 0 <= i < n ensures prev[i] == items[i] && Dropped(key, prev, i) == Dropped(key, items, i) {
      assert prev[..i] == items[..i];
    }
  }

  lemma {:induction false} LastNewIs(key: LogicalKey, items: seq<Interaction>, k: string)
    ensures var a := Replies(Keyed(key), Firsts(key, items), k);
      LastNew(key, items, k) == if a == [] then None else Some(a[|a| - 1])
  {
    if items != [] {
      var n := |items| - 1;
      LastNewIs(key, items[..n], k);
      KeptReplies(key, items, k);
    }
  }

  predicate RepeatsNew(key: LogicalKey, items: seq<Interaction>, k: string) {
    var last := LastNew(key, items, k);
    last.None? || DropsRepeatOf(key, items, k, last.value)
  }

  lemma RepeatsAlike(key: LogicalKey, items: seq<Interaction>, k: string)
    ensures SameUnder(Replies(Keyed(key), Firsts(key, items), k), Replies(Keyed(key), items, k), RepeatLast)
      <==> RepeatsNew(key, items, k)
  {
    MergeThins(key, items, k);
    LastNewIs(key, items, k);
    ThinnedRepeats(Replies(Keyed(key), Firsts(key, items), k), Replies(Keyed(key), items, k), Agreeing(key, items, k));
    if LastNew(key, items, k).Some? { DropsRepeatAt(key, items, k, LastNew(key, items, k).value); }
  }

  lemma NoNews(key: LogicalKey, items: seq<Interaction>, k: string)
    requires LastNew(key, items, k).None?
    ensures forall i | 0 <= i < |items| :: key(items[i]) != k
  {
    MergeThins(key, items, k);
    LastNewIs(key, items, k);
    forall i | 0 <= i < |items| ensures key(items[i]) != k {
      if key(items[i]) == k { RepliesOfKey(key, items, i); }
    }
  }

  // ---------------------------------------------------------------- for every policy

  predicate ReplaysAlike(key: LogicalKey, items: seq<Interaction>, policy: Policy) {
    match policy
    case Fail => NoCopies(key, items)
    case RepeatLast => DropsRepeat(key, items)
    case Cycle => DropsGoRound(key, items)
  }

  /** For each key, what is recorded is what is kept, repeated whole. */
  ghost predicate DropsWhole(key: LogicalKey, items: seq<Interaction>) {
    forall it <- items :: exists n: nat ::
      Replies(Keyed(key), items, key(it)) == Power(Replies(Keyed(key), Firsts(key, items), key(it)), n)
  }

  /** The kept responses of each key differ from each other. */
  predicate KeptDiffer(key: LogicalKey, items: seq<Interaction>) {
    forall it <- items :: AllDiffer(Replies(Keyed(key), Firsts(key, items), key(it)))
  }

  /** Where the kept responses of each key differ from each other, a merge cycles like what it was made from
      exactly when each key was recorded as what is kept of it, repeated whole. */
  lemma GoRoundIff(key: LogicalKey, items: seq<Interaction>)
    requires KeptDiffer(key, items)
    ensures DropsGoRound(key, items) <==> DropsWhole(key, items)
  {
    forall it <- items ensures
        var a, b := Replies(Keyed(key), Firsts(key, items), key(it)), Replies(Keyed(key), items, key(it));
        a + b == b + a <==> exists n: nat :: b == Power(a, n)
    {
      var i :| 0 <= i < |items| && items[i] == it;
      RepliesOfKey(key, items, i);
      MergeThins(key, items, key(it));
      DistinctCommutes(Replies(Keyed(key), Firsts(key, items), key(it)), Replies(Keyed(key), items, key(it)));
    }
  }

  /** One request body for each key. */
  predicate OneRequest(key: LogicalKey, items: seq<Interaction>) {
    forall x <- items, y <- items :: key(x) == key(y) ==> Bytes(x.request.body) == Bytes(y.request.body)
  }

  /** That is so when every key stands for one request body. */
  lemma OneRequestDiffers(key: LogicalKey, items: seq<Interaction>)
    requires OneRequest(key, items)
    ensures KeptDiffer(key, items)
  {
    FirstsDistinct(key, items);
    forall it <- items ensures AllDiffer(Replies(Keyed(key), Firsts(key, items), key(it))) {
      NoCopiesDiffer(key, Firsts(key, items), key(it));
    }
  }

  lemma {:induction false} NoCopiesDiffer(key: LogicalKey, kept: seq<Interaction>, k: string)
    requires NoCopies(key, kept) && OneRequest(key, kept)
    ensures AllDiffer(Replies(Keyed(key), kept, k))
    ensures forall r <- Replies(Keyed(key), kept, k) :: exists x <- kept :: key(x) == k && x.response == r
  {
    if kept != [] {
      var n := |kept| - 1;
      var prev := kept[..n];
      assert NoCopies(key, prev);
      NoCopiesDiffer(key, prev, k);
      var a := Replies(Keyed(key), prev, k);
      forall r <- a ensures exists x <- kept :: key(x) == k && x.response == r {
        var x :| x in prev && key(x) == k && x.response == r;
        assert x in kept;
      }
      if key(kept[n]) == k {
        forall x <- prev | key(x) == k ensures x.response != kept[n].response {
          var i :| 0 <= i < n && prev[i] == x;
          NoCopyDiffers(key, kept, i, n);
        }
      }
      LastDiffers(a, kept[n].response, key(kept[n]) == k);
      NothingAdded(a);
    }
  }

  lemma NoCopyDiffers(key: LogicalKey, kept: seq<Interaction>, i: nat, j: nat)
    requires NoCopies(key, kept) && OneRequest(key, kept) && i < j < |kept| && key(kept[i]) == key(kept[j])
    ensures kept[i].response != kept[j].response
  {
    assert kept[i] in kept && kept[j] in kept;
    assert !Copies(key, kept[i], kept[j]);
  }

  lemma LastDiffers(a: seq<Response>, r: Response, more: bool)
    requires AllDiffer(a) && (more ==> r !in a)
    ensures AllDiffer(if more then a + [r] else a)
  {
  }

  lemma FailAlike(key: LogicalKey, items: seq<Interaction>)
    ensures SameReplies(Keyed(key), Firsts(key, items), items, Fail) <==> NoCopies(key, items)
  {
    KeepsAllIff(key, items);
    if !NoCopies(key, items) {
      FirstsShorter(key, items);
      var k := DroppedReply(key, items);
      assert !SameUnder(Replies(Keyed(key), Firsts(key, items), k), Replies(Keyed(key), items, k), Fail);
    }
  }

  lemma {:induction false} FirstsShorter(key: LogicalKey, items: seq<Interaction>)
    ensures |Firsts(key, items)| <= |items| && (|Firsts(key, items)| == |items| ==> Firsts(key, items) == items)
  {
    if items != [] {
      FirstsShorter(key, items[..|items| - 1]);
      assert items == items[..|items| - 1] + [items[|items| - 1]];
    }
  }

  lemma {:induction false} DroppedReply(key: LogicalKey, items: seq<Interaction>) returns (k: string)
    requires |Firsts(key, items)| < |items|
    ensures |Replies(Keyed(key), Firsts(key, items), k)| < |Replies(Keyed(key), items, k)|
  {
    var n := |items| - 1;
    var p := Firsts(key, items[..n]);
    assert (p + [items[n]])[..|p|] == p;
    assert p + [] == p;
    if HasCopy(key, items[..n], items[n]) {
      k := key(items[n]);
      MergeThins(key, items[..n], k);
    } else {
      k := DroppedReply(key, items[..n]);
    }
  }

  lemma RepeatLastAlike(key: LogicalKey, items: seq<Interaction>)
    ensures SameReplies(Keyed(key), Firsts(key, items), items, RepeatLast) <==> DropsRepeat(key, items)
  {
    forall k ensures
        SameUnder(Replies(Keyed(key), Firsts(key, items), k), Replies(Keyed(key), items, k), RepeatLast)
        <==> RepeatsNew(key, items, k)
    {
      RepeatsAlike(key, items, k);
    }
    if forall k :: RepeatsNew(key, items, k) { EachRepeats(key, items); }
    if DropsRepeat(key, items) {
      forall k ensures RepeatsNew(key, items, k) { RepeatsEach(key, items, k); }
    }
  }

  lemma EachRepeats(key: LogicalKey, items: seq<Interaction>)
    requires forall k :: RepeatsNew(key, items, k)
    ensures DropsRepeat(key, items)
  {
    forall i, j | 0 <= i <= j < |items| && key(items[i]) == key(items[j]) && Dropped(key, items, i)
      ensures Some(items[j].response) == LastNew(key, items, key(items[i]))
    {
      assert RepeatsNew(key, items, key(items[i]));
      if LastNew(key, items, key(items[i])).None? { NoNews(key, items, key(items[i])); }
    }
  }

  lemma RepeatsEach(key: LogicalKey, items: seq<Interaction>, k: string)
    requires DropsRepeat(key, items)
    ensures RepeatsNew(key, items, k)
  {
    forall i, j | 0 <= i <= j < |items| && key(items[i]) == key(items[j]) == k && Dropped(key, items, i)
      ensures Some(items[j].response) == LastNew(key, items, k)
    {
      assert Some(items[j].response) == LastNew(key, items, key(items[i]));
    }
  }

  lemma CycleAlike(key: LogicalKey, items: seq<Interaction>)
    ensures SameReplies(Keyed(key), Firsts(key, items), items, Cycle) <==> DropsGoRound(key, items)
  {
    forall k ensures SameUnder(Replies(Keyed(key), Firsts(key, items), k), Replies(Keyed(key), items, k), Cycle)
      <==> ((exists it <- items :: key(it) == k) ==>
            Replies(Keyed(key), Firsts(key, items), k) + Replies(Keyed(key), items, k)
            == Replies(Keyed(key), items, k) + Replies(Keyed(key), Firsts(key, items), k))
    {
      MergeThins(key, items, k);
      if exists it <- items :: key(it) == k {
        var i :| 0 <= i < |items| && key(items[i]) == k;
        RepliesOfKey(key, items, i);
      } else {
        NoKeyNoReplies(Keyed(key), items, k);
      }
    }
    if SameReplies(Keyed(key), Firsts(key, items), items, Cycle) {
      forall it <- items ensures
          var a, b := Replies(Keyed(key), Firsts(key, items), key(it)), Replies(Keyed(key), items, key(it));
          a + b == b + a
      {
        assert SameUnder(Replies(Keyed(key), Firsts(key, items), key(it)), Replies(Keyed(key), items, key(it)), Cycle);
      }
    }
  }

  /** A merged recording replays like the recordings stitched together exactly when: nothing is a copy of
      anything before it, when over-consumption fails; all that follows a drop only repeats what the merge
      ends on, when the last response is repeated; kept and recorded responses are rounds of one word, when
      they are cycled through. */
  lemma MergeReplaysIff(sum: Sum, key: LogicalKey, items: seq<Interaction>, policy: Policy)
    requires Telling(sum, items)
    ensures Equivalent(Keyed(key), TallyOf(sum, key, items).kept, items, policy) <==> ReplaysAlike(key, items, policy)
  {
    KeepsFirsts(sum, key, items);
    EquivalentIff(Keyed(key), Firsts(key, items), items, policy);
    match policy
    case Fail => FailAlike(key, items);
    case RepeatLast => RepeatLastAlike(key, items);
    case Cycle => CycleAlike(key, items);
  }
}
