/** Merging recordings: copies and conflicts. */
module Merge {
  import opened Lists
  import opened Options
  import opened Texts
  import opened Cassettes
  import opened Compose

  type Sum = string -> string

  type LogicalKey = Interaction -> string

  /** The bodies a merge digests. */
  function Bodies(items: seq<Interaction>): set<string> {
    (set it | it in items :: Bytes(it.request.body)) + (set it | it in items :: Bytes(it.response.body))
  }

  /** Their checksums have one length and tell them apart. */
  predicate Telling(sum: Sum, items: seq<Interaction>) {
    Tells(sum, Bodies(items)) && forall a <- Bodies(items), b <- Bodies(items) :: |sum(a)| == |sum(b)|
  }

  lemma TellingSome(sum: Sum, items: seq<Interaction>, some: seq<Interaction>)
    requires Telling(sum, items) && forall it <- some :: it in items
    ensures Telling(sum, some)
  {
    assert Bodies(some) <= Bodies(items);
  }

  function RequestSum(sum: Sum, it: Interaction): string { sum(Bytes(it.request.body)) }

  function ResponseSum(sum: Sum, it: Interaction): string { sum(Bytes(it.response.body)) }

  const UNIT_SEPARATOR: string := [0x1f as char]

  function Identity(sum: Sum, key: LogicalKey, it: Interaction): string {
    key(it) + UNIT_SEPARATOR + RequestSum(sum, it) + UNIT_SEPARATOR + ResponseSum(sum, it)
  }

  /** Same key, same request body, same response body. */
  predicate Copies(key: LogicalKey, x: Interaction, y: Interaction) {
    key(x) == key(y) && Bytes(x.request.body) == Bytes(y.request.body) && Bytes(x.response.body) == Bytes(y.response.body)
  }

  lemma IdentityTells(sum: Sum, key: LogicalKey, items: seq<Interaction>, x: Interaction, y: Interaction)
    requires Telling(sum, items) && x in items && y in items
    ensures Identity(sum, key, x) == Identity(sum, key, y) <==> Copies(key, x, y)
  {
    if Identity(sum, key, x) == Identity(sum, key, y) {
      var u := UNIT_SEPARATOR;
      assert {Bytes(x.request.body), Bytes(x.response.body), Bytes(y.request.body), Bytes(y.response.body)} <= Bodies(items);
      SameEnds(key(x) + u + RequestSum(sum, x) + u, ResponseSum(sum, x),
               key(y) + u + RequestSum(sum, y) + u, ResponseSum(sum, y));
      SameEnds(key(x) + u + RequestSum(sum, x), u, key(y) + u + RequestSum(sum, y), u);
      SameEnds(key(x) + u, RequestSum(sum, x), key(y) + u, RequestSum(sum, y));
      SameEnds(key(x), u, key(y), u);
    }
  }

  predicate HasCopy(key: LogicalKey, items: seq<Interaction>, it: Interaction) {
    exists i | 0 <= i < |items| :: Copies(key, items[i], it)
  }

  /** The interactions without a copy before them. */
  function Firsts(key: LogicalKey, items: seq<Interaction>): seq<Interaction> {
    if items == [] then []
    else
      var n := |items| - 1;
      Firsts(key, items[..n]) + if HasCopy(key, items[..n], items[n]) then [] else [items[n]]
  }

  /** Keys recorded with two different response bodies. */
  ghost predicate Conflicting(key: LogicalKey, items: seq<Interaction>, k: string) {
    exists i, j | 0 <= i < |items| && 0 <= j < |items| ::
      key(items[i]) == key(items[j]) == k && Bytes(items[i].response.body) != Bytes(items[j].response.body)
  }

  function AllOf(files: seq<Option<File>>): seq<Interaction> {
    if files == [] then []
    else AllOf(files[..|files| - 1]) + match files[|files| - 1] case None => [] case Some(f) => f.interactions
  }

  // ---------------------------------------------------------------- the loop

  /** What the loop keeps: identities seen, the first response sum of each key, the keys in conflict, and
      the interactions kept. */
  datatype Tally = Tally(seen: set<string>, first: map<string, string>, conflicts: set<string>,
                         kept: seq<Interaction>, deduped: nat)

  const NOTHING := Tally({}, map[], {}, [], 0)

  function Count(sum: Sum, key: LogicalKey, t: Tally, it: Interaction): Tally {
    var id, k, r := Identity(sum, key, it), key(it), ResponseSum(sum, it);
    if id in t.seen then t.(deduped := t.deduped + 1)
    else
      Tally(t.seen + {id}, if k in t.first then t.first else t.first[k := r],
            if k in t.first && t.first[k] != r then t.conflicts + {k} else t.conflicts,
            t.kept + [it], t.deduped)
  }

  function TallyOf(sum: Sum, key: LogicalKey, items: seq<Interaction>): Tally {
    if items == [] then NOTHING else Count(sum, key, TallyOf(sum, key, items[..|items| - 1]), items[|items| - 1])
  }

  method CountFile(sum: Sum, key: LogicalKey, ghost done: seq<Interaction>, before: Tally, items: seq<Interaction>)
    returns (t: Tally)
    requires before == TallyOf(sum, key, done)
    ensures t == TallyOf(sum, key, done + items)
  {
    t := before;
    var j := 0;
    assert done + items[..0] == done;
    while j < |items|
      invariant 0 <= j <= |items| && t == TallyOf(sum, key, done + items[..j])
    {
      CountOne(sum, key, done, items, j);
      t := Count(sum, key, t, items[j]);
      j := j + 1;
    }
    assert items[..|items|] == items;
  }

  method Merge(sum: Sum, key: LogicalKey, files: seq<Option<File>>)
    returns (out: File, total: nat, deduped: nat, conflicts: set<string>)
    ensures var t := TallyOf(sum, key, AllOf(files));
      out.interactions == t.kept && total == |t.kept| && deduped == t.deduped && conflicts == t.conflicts
    ensures out.spec == Stitched(files).spec && out.contract == Stitched(files).contract
  {
    out := BLANK;
    ghost var done: seq<Interaction> := [];
    var t := NOTHING;
    var i := 0;
    while i < |files|
      invariant 0 <= i <= |files| && done == AllOf(files[..i]) && t == TallyOf(sum, key, done)
      invariant out.spec == Stitched(files[..i]).spec && out.contract == Stitched(files[..i]).contract
    {
      assert files[..i + 1][..i] == files[..i];
      if files[i].Some? {
        var f := files[i].value;
        if out.contract.None? { out := out.(contract := f.contract); }
        var spec := CarryMatch(out.spec, f.spec);
        out := out.(spec := spec);
        t := CountFile(sum, key, done, t, f.interactions);
        done := done + f.interactions;
      } else {
        assert done + [] == done;
      }
      i := i + 1;
    }
    assert files[..|files|] == files;
    out := out.(interactions := t.kept);
    total, deduped, conflicts := |t.kept|, t.deduped, t.conflicts;
  }

  lemma CountOne(sum: Sum, key: LogicalKey, done: seq<Interaction>, more: seq<Interaction>, j: nat)
    requires j < |more|
    ensures TallyOf(sum, key, done + more[..j + 1]) == Count(sum, key, TallyOf(sum, key, done + more[..j]), more[j])
  {
    var all := done + more[..j + 1];
    assert all[..|all| - 1] == done + more[..j] && all[|all| - 1] == more[j];
  }

  // ---------------------------------------------------------------- what is kept

  lemma HasCopySnoc(key: LogicalKey, items: seq<Interaction>, x: Interaction, it: Interaction)
    ensures HasCopy(key, items + [x], it) <==> HasCopy(key, items, it) || Copies(key, x, it)
  {
    var all := items + [x];
    if HasCopy(key, items, it) {
      var i :| 0 <= i < |items| && Copies(key, items[i], it);
      assert all[i] == items[i];
    }
    assert all[|items|] == x;
  }

  lemma {:induction false} SeenIffCopied(sum: Sum, key: LogicalKey, items: seq<Interaction>, it: Interaction)
    requires Telling(sum, items + [it])
    ensures Identity(sum, key, it) in TallyOf(sum, key, items).seen <==> HasCopy(key, items, it)
  {
    if items != [] {
      var n := |items| - 1;
      TellingSome(sum, items + [it], items[..n] + [it]);
      SeenIffCopied(sum, key, items[..n], it);
      assert items == items[..n] + [items[n]];
      HasCopySnoc(key, items[..n], items[n], it);
      IdentityTells(sum, key, items + [it], items[n], it);
    }
  }

  /** What a merge keeps are the first of all copies, in order; all others are counted as dropped. */
  lemma {:induction false} KeepsFirsts(sum: Sum, key: LogicalKey, items: seq<Interaction>)
    requires Telling(sum, items)
    ensures var t := TallyOf(sum, key, items); t.kept == Firsts(key, items) && |t.kept| + t.deduped == |items|
  {
    if items != [] {
      var n := |items| - 1;
      assert items == items[..n] + [items[n]];
      TellingSome(sum, items, items[..n]);
      KeepsFirsts(sum, key, items[..n]);
      SeenIffCopied(sum, key, items[..n], items[n]);
      assert Firsts(key, items[..n]) + [] == Firsts(key, items[..n]);
    }
  }

  /** Whatever was recorded has its copy in what is kept, and of no two that are kept is one the copy of
      the other. */
  lemma {:induction false} FirstsCover(key: LogicalKey, items: seq<Interaction>, i: nat)
    requires i < |items|
    ensures HasCopy(key, Firsts(key, items), items[i])
  {
    var n := |items| - 1;
    var before := Firsts(key, items[..n]);
    if i < n {
      assert items[..n][i] == items[i];
      FirstsCover(key, items[..n], i);
      if HasCopy(key, items[..n], items[n]) { assert before + [] == before; }
      else { HasCopySnoc(key, before, items[n], items[i]); }
    } else if HasCopy(key, items[..n], items[n]) {
      var j :| 0 <= j < n && Copies(key, items[..n][j], items[n]);
      FirstsCover(key, items[..n], j);
      var k :| 0 <= k < |before| && Copies(key, before[k], items[..n][j]);
      assert Copies(key, before[k], items[n]) && before + [] == before;
    } else {
      HasCopySnoc(key, before, items[n], items[i]);
    }
  }

  lemma {:induction false} FirstsDistinct(key: LogicalKey, items: seq<Interaction>)
    ensures forall f <- Firsts(key, items) :: f in items
    ensures forall i, j | 0 <= i < j < |Firsts(key, items)| :: !Copies(key, Firsts(key, items)[i], Firsts(key, items)[j])
  {
    if items != [] {
      var n := |items| - 1;
      FirstsDistinct(key, items[..n]);
      var before := Firsts(key, items[..n]);
      if !HasCopy(key, items[..n], items[n]) {
        forall i | 0 <= i < |before| ensures !Copies(key, before[i], items[n]) {
          assert before[i] in items[..n];
          var j :| 0 <= j < n && items[..n][j] == before[i];
        }
      }
    }
  }

  // ---------------------------------------------------------------- conflicts

  function FirstWith(key: LogicalKey, items: seq<Interaction>, k: string): Option<Interaction> {
    if items == [] then None
    else
      var n := |items| - 1;
      var f := FirstWith(key, items[..n], k);
      if f.Some? then f else if key(items[n]) == k then Some(items[n]) else None
  }

  lemma {:induction false} FirstWithExact(key: LogicalKey, items: seq<Interaction>, k: string)
    ensures var f := FirstWith(key, items, k);
      if f.Some? then f.value in items && key(f.value) == k else forall i | 0 <= i < |items| :: key(items[i]) != k
  {
    if items != [] {
      var n := |items| - 1;
      assert items == items[..n] + [items[n]];
      FirstWithExact(key, items[..n], k);
    }
  }

  lemma {:induction false} FirstSums(sum: Sum, key: LogicalKey, items: seq<Interaction>, k: string)
    requires Telling(sum, items)
    ensures var f := FirstWith(key, items, k); var t := TallyOf(sum, key, items);
      if f.Some? then k in t.first && t.first[k] == ResponseSum(sum, f.value) else k !in t.first
  {
    if items != [] {
      var n := |items| - 1;
      assert items == items[..n] + [items[n]];
      TellingSome(sum, items, items[..n]);
      FirstSums(sum, key, items[..n], k);
      SeenIffCopied(sum, key, items[..n], items[n]);
      FirstWithExact(key, items[..n], k);
    }
  }

  lemma ConflictingSnoc(key: LogicalKey, items: seq<Interaction>, it: Interaction, k: string)
    ensures Conflicting(key, items + [it], k)
      <==> Conflicting(key, items, k)
           || (key(it) == k && var f := FirstWith(key, items, k);
               f.Some? && Bytes(f.value.response.body) != Bytes(it.response.body))
  {
    var all := items + [it];
    FirstWithExact(key, items, k);
    var f := FirstWith(key, items, k);
    if Conflicting(key, items, k) {
      var i, j :| 0 <= i < |items| && 0 <= j < |items|
                  && key(items[i]) == key(items[j]) == k && Bytes(items[i].response.body) != Bytes(items[j].response.body);
      assert all[i] == items[i] && all[j] == items[j];
    }
    if key(it) == k && f.Some? && Bytes(f.value.response.body) != Bytes(it.response.body) {
      var i :| 0 <= i < |items| && items[i] == f.value;
      assert all[i] == items[i] && all[|items|] == it;
    }
    if Conflicting(key, all, k) && !Conflicting(key, items, k) {
      var i, j :| 0 <= i < |all| && 0 <= j < |all|
                  && key(all[i]) == key(all[j]) == k && Bytes(all[i].response.body) != Bytes(all[j].response.body);
      assert i == |items| || j == |items|;
      var o := if i == |items| then j else i;
      assert items[o] == all[o];
      var m :| 0 <= m < |items| && items[m] == f.value;
    }
  }

  lemma SumsDiffer(sum: Sum, items: seq<Interaction>, it: Interaction, f: Option<Interaction>)
    requires Telling(sum, items) && it in items
    ensures f.Some? && f.value in items ==>
      (ResponseSum(sum, f.value) == ResponseSum(sum, it) <==> Bytes(f.value.response.body) == Bytes(it.response.body))
  {
    if f.Some? && f.value in items {
      assert {Bytes(it.response.body), Bytes(f.value.response.body)} <= Bodies(items);
    }
  }

  /** The reported conflicts are exactly the keys recorded with two different response bodies. */
  lemma {:induction false} ConflictsExact(sum: Sum, key: LogicalKey, items: seq<Interaction>, k: string)
    requires Telling(sum, items)
    ensures k in TallyOf(sum, key, items).conflicts <==> Conflicting(key, items, k)
  {
    if items != [] {
      var n := |items| - 1;
      var it := items[n];
      assert items == items[..n] + [it];
      TellingSome(sum, items, items[..n]);
      if HasCopy(key, items[..n], it) && key(it) == k { CopyNoNews(key, items[..n], it); }
      ConflictsExact(sum, key, items[..n], k);
      ConflictingSnoc(key, items[..n], it, k);
      ConflictCounted(sum, key, items[..n], it, k);
    }
  }

  lemma ConflictCounted(sum: Sum, key: LogicalKey, items: seq<Interaction>, it: Interaction, k: string)
    requires Telling(sum, items + [it])
    ensures var t := TallyOf(sum, key, items); var f := FirstWith(key, items, k);
      k in Count(sum, key, t, it).conflicts
      <==> k in t.conflicts || (key(it) == k && !HasCopy(key, items, it) && f.Some?
                                && Bytes(f.value.response.body) != Bytes(it.response.body))
  {
    var f := FirstWith(key, items, k);
    TellingSome(sum, items + [it], items);
    FirstSums(sum, key, items, k);
    FirstWithExact(key, items, k);
    SeenIffCopied(sum, key, items, it);
    SumsDiffer(sum, items + [it], it, f);
  }

  /** A copy brings no conflict that was not there. */
  lemma CopyNoNews(key: LogicalKey, items: seq<Interaction>, it: Interaction)
    requires HasCopy(key, items, it)
    ensures var f := FirstWith(key, items, key(it));
      f.Some? && Bytes(f.value.response.body) != Bytes(it.response.body) ==> Conflicting(key, items, key(it))
  {
    FirstWithExact(key, items, key(it));
    var f := FirstWith(key, items, key(it));
    var i :| 0 <= i < |items| && Copies(key, items[i], it);
    if f.Some? {
      var j :| 0 <= j < |items| && items[j] == f.value;
    }
  }

  // ---------------------------------------------------------------- what is lost

  /** Every interaction is kept, or has a kept copy that answers as it does. */
  predicate NothingLost(key: LogicalKey, items: seq<Interaction>) {
    forall it <- items :: exists k | 0 <= k < |Firsts(key, items)| ::
      Copies(key, Firsts(key, items)[k], it) && Firsts(key, items)[k].response == it.response
  }

  predicate CopiesAgree(key: LogicalKey, items: seq<Interaction>) {
    forall i, j | 0 <= i < j < |items| && Copies(key, items[i], items[j]) :: items[i].response == items[j].response
  }

  /** Copies are told by their bodies alone. No behaviour is lost exactly when copies agree on all the rest
      of their responses: status, headers, error and timing. */
  lemma NothingLostIff(key: LogicalKey, items: seq<Interaction>)
    ensures NothingLost(key, items) <==> CopiesAgree(key, items)
  {
    if NothingLost(key, items) {
      forall i, j | 0 <= i < j < |items| && Copies(key, items[i], items[j]) ensures items[i].response == items[j].response {
        OneKeptCopy(key, items, items[i], items[j]);
      }
    }
    if CopiesAgree(key, items) {
      forall it <- items ensures exists k | 0 <= k < |Firsts(key, items)| ::
        Copies(key, Firsts(key, items)[k], it) && Firsts(key, items)[k].response == it.response
      {
        AgreeingCopyKept(key, items, it);
      }
    }
  }

  lemma OneKeptCopy(key: LogicalKey, items: seq<Interaction>, x: Interaction, y: Interaction)
    requires NothingLost(key, items) && x in items && y in items && Copies(key, x, y)
    ensures x.response == y.response
  {
    var kept := Firsts(key, items);
    FirstsDistinct(key, items);
    var k :| 0 <= k < |kept| && Copies(key, kept[k], x) && kept[k].response == x.response;
    var l :| 0 <= l < |kept| && Copies(key, kept[l], y) && kept[l].response == y.response;
    assert Copies(key, kept[k], kept[l]) && Copies(key, kept[l], kept[k]);
  }

  lemma AgreeingCopyKept(key: LogicalKey, items: seq<Interaction>, it: Interaction)
    requires CopiesAgree(key, items) && it in items
    ensures exists k | 0 <= k < |Firsts(key, items)| ::
      Copies(key, Firsts(key, items)[k], it) && Firsts(key, items)[k].response == it.response
  {
    var kept := Firsts(key, items);
    FirstsDistinct(key, items);
    var i :| 0 <= i < |items| && items[i] == it;
    FirstsCover(key, items, i);
    var k :| 0 <= k < |kept| && Copies(key, kept[k], it);
    assert kept[k] in items;
    var j :| 0 <= j < |items| && items[j] == kept[k];
    assert Copies(key, items[i], items[j]);
  }

  /** A success and a failure with one body: the failure is dropped, and no conflict is reported. */
  lemma StatusLost(sum: Sum, key: LogicalKey, x: Interaction, y: Interaction)
    requires Telling(sum, [x, y]) && x.response.status == 200 && y == x.(response := x.response.(status := 500))
    requires key(x) == key(y)
    ensures var t := TallyOf(sum, key, [x, y]); t.kept == [x] && t.conflicts == {} && !NothingLost(key, [x, y])
  {
    var items := [x, y];
    assert Copies(key, items[0], items[1]);
    NothingLostIff(key, items);
    assert items[..1] == [x] && [x][..0] == [];
    assert TallyOf(sum, key, [x]) == Count(sum, key, NOTHING, x);
  }

  // ---------------------------------------------------------------- what is asked of checksums can be had

  lemma {:induction false} SomeSum(items: seq<Interaction>) returns (sum: Sum)
    ensures Telling(sum, items)
  {
    var texts := Enumerate(Bodies(items));
    sum := x => MapSeq(y => if y == x then '1' else '0', texts);
    forall a <- Bodies(items), b <- Bodies(items) ensures sum(a) == sum(b) ==> a == b {
      assert a in Elements(texts);
      var i :| 0 <= i < |texts| && texts[i] == a;
      MapSeqAt(y => if y == a then '1' else '0', texts, i);
      MapSeqAt(y => if y == b then '1' else '0', texts, i);
    }
  }
}
