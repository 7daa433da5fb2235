/** Split, stitch, and what replay can tell apart. */
module Compose {
  import opened Lists
  import opened Options
  import opened Cassettes
  import opened Replay
  import opened Alike

  // ---------------------------------------------------------------- carrying the match settings

  /** The strings of b that are not seen yet, each once. */
  function Unseen(b: seq<string>, seen: set<string>): seq<string>
    decreases |b|
  {
    if b == [] then []
    else if b[0] in seen then Unseen(b[1..], seen)
    else [b[0]] + Unseen(b[1..], seen + {b[0]})
  }

  function Elements(s: seq<string>): set<string> {
    set x | x in s
  }

  function Union(a: seq<string>, b: seq<string>): seq<string> {
    a + Unseen(b, Elements(a))
  }

  method UnionStrings(a: seq<string>, b: seq<string>) returns (r: seq<string>)
    ensures r == Union(a, b)
  {
    var seen: set<string> := {};
    var i := 0;
    while i < |a|
      invariant 0 <= i <= |a| && seen == Elements(a[..i])
    {
      seen := seen + {a[i]};
      i := i + 1;
    }
    assert a[..|a|] == a;
    r := a;
    i := 0;
    while i < |b|
      invariant 0 <= i <= |b| && Union(a, b) == r + Unseen(b[i..], seen)
    {
      assert b[i..][1..] == b[i + 1..];
      if b[i] !in seen {
        Assoc(r, [b[i]], Unseen(b[i + 1..], seen + {b[i]}));
        seen := seen + {b[i]};
        r := r + [b[i]];
      }
      i := i + 1;
    }
  }

  lemma {:induction false} UnseenExact(b: seq<string>, seen: set<string>, x: string)
    ensures x in Unseen(b, seen) <==> x in b && x !in seen
    decreases |b|
  {
    if b != [] {
      UnseenExact(b[1..], seen, x);
      UnseenExact(b[1..], seen + {b[0]}, x);
    }
  }

  /** A union holds what either side holds; what was there keeps its place, and nothing is added twice. */
  lemma {:induction false} UnionExact(a: seq<string>, b: seq<string>)
    ensures forall x :: x in Union(a, b) <==> x in a || x in b
    ensures a <= Union(a, b)
    ensures forall i, j | |a| <= i < |Union(a, b)| && 0 <= j < i :: Union(a, b)[i] != Union(a, b)[j]
  {
    forall x ensures x in Union(a, b) <==> x in a || x in b { UnseenExact(b, Elements(a), x); }
    UnseenDistinct(b, Elements(a));
    var u := Unseen(b, Elements(a));
    forall i, j | |a| <= i < |a| + |u| && 0 <= j < i ensures (a + u)[i] != (a + u)[j] {
      UnseenExact(b, Elements(a), u[i - |a|]);
    }
  }

  lemma {:induction false} UnseenDistinct(b: seq<string>, seen: set<string>)
    ensures forall i, j | 0 <= i < j < |Unseen(b, seen)| :: Unseen(b, seen)[i] != Unseen(b, seen)[j]
    decreases |b|
  {
    if b != [] {
      UnseenDistinct(b[1..], seen);
      UnseenDistinct(b[1..], seen + {b[0]});
      var u := Unseen(b[1..], seen + {b[0]});
      forall j | 0 <= j < |u| ensures u[j] != b[0] { UnseenExact(b[1..], seen + {b[0]}, u[j]); }
    }
  }

  function Carry(out: Option<MatchSpec>, f: Option<MatchSpec>): Option<MatchSpec> {
    if f.None? then out
    else
      var o := if out.None? then MatchSpec([], []) else out.value;
      Some(MatchSpec(Union(o.volatilePaths, f.value.volatilePaths), Union(o.headerAllowlist, f.value.headerAllowlist)))
  }

  method CarryMatch(out: Option<MatchSpec>, f: Option<MatchSpec>) returns (r: Option<MatchSpec>)
    ensures r == Carry(out, f)
  {
    if f.None? { return out; }
    var o := if out.None? then MatchSpec([], []) else out.value;
    var paths := UnionStrings(o.volatilePaths, f.value.volatilePaths);
    var headers := UnionStrings(o.headerAllowlist, f.value.headerAllowlist);
    return Some(MatchSpec(paths, headers));
  }

  /** The volatile paths and the allowed headers of match settings, if there are any. */
  function VolatilePaths(spec: Option<MatchSpec>): seq<string> {
    if spec.Some? then spec.value.volatilePaths else []
  }

  function AllowedHeaders(spec: Option<MatchSpec>): seq<string> {
    if spec.Some? then spec.value.headerAllowlist else []
  }

  ghost predicate SameStrings(a: seq<string>, b: seq<string>) {
    forall x :: x in a <==> x in b
  }

  /** Carried settings hold exactly what either side holds, and are there when either side has any. */
  lemma CarryExact(out: Option<MatchSpec>, f: Option<MatchSpec>)
    ensures Carry(out, f).Some? <==> out.Some? || f.Some?
    ensures forall x :: x in VolatilePaths(Carry(out, f)) <==> x in VolatilePaths(out) || x in VolatilePaths(f)
    ensures forall x :: x in AllowedHeaders(Carry(out, f)) <==> x in AllowedHeaders(out) || x in AllowedHeaders(f)
  {
    UnionExact(VolatilePaths(out), VolatilePaths(f));
    UnionExact(AllowedHeaders(out), AllowedHeaders(f));
  }

  // ---------------------------------------------------------------- stitch

  const BLANK := File("", None, None, [])

  function Added(out: File, f: Option<File>): File {
    if f.None? then out
    else
      File("", if out.contract.None? then f.value.contract else out.contract, Carry(out.spec, f.value.spec),
           out.interactions + f.value.interactions)
  }

  function Stitched(files: seq<Option<File>>): File {
    if files == [] then BLANK else Added(Stitched(files[..|files| - 1]), files[|files| - 1])
  }

  method Stitch(files: seq<Option<File>>) returns (out: File)
    ensures out == Stitched(files)
  {
    out := BLANK;
    var i := 0;
    while i < |files|
      invariant 0 <= i <= |files| && out == Stitched(files[..i]) && out.notice == ""
    {
      assert files[..i + 1][..i] == files[..i];
      if files[i].Some? {
        var f := files[i].value;
        var spec := CarryMatch(out.spec, f.spec);
        if out.contract.None? && f.contract.Some? { out := out.(contract := f.contract); }
        out := out.(spec := spec, interactions := out.interactions + f.interactions);
      }
      i := i + 1;
    }
    assert files[..|files|] == files;
  }

  function AllInteractions(files: seq<Option<File>>): seq<Interaction> {
    if files == [] then []
    else (if files[0].Some? then files[0].value.interactions else []) + AllInteractions(files[1..])
  }

  /** The contract of the first file that has one. */
  function FirstContract(files: seq<Option<File>>): Option<string> {
    if files == [] then None
    else if files[0].Some? && files[0].value.contract.Some? then files[0].value.contract
    else FirstContract(files[1..])
  }

  lemma {:induction false} FirstContractSnoc(files: seq<Option<File>>, f: Option<File>)
    ensures FirstContract(files + [f])
         == if FirstContract(files).Some? then FirstContract(files) else if f.Some? then f.value.contract else None
  {
    if files == [] {
      assert files + [f] == [f] && [f][1..] == [];
    } else {
      assert (files + [f])[1..] == files[1..] + [f];
      FirstContractSnoc(files[1..], f);
    }
  }

  lemma {:induction false} AllInteractionsSnoc(files: seq<Option<File>>, f: Option<File>)
    ensures AllInteractions(files + [f]) == AllInteractions(files) + if f.Some? then f.value.interactions else []
  {
    if files == [] {
      assert files + [f] == [f] && [f][1..] == [];
      NothingAdded(AllInteractions([f]));
    } else {
      assert (files + [f])[1..] == files[1..] + [f];
      AllInteractionsSnoc(files[1..], f);
      Assoc(if files[0].Some? then files[0].value.interactions else [], AllInteractions(files[1..]),
            if f.Some? then f.value.interactions else []);
    }
  }

  /** A stitched recording has the interactions of all files one after the other, the contract of the first
      file that has one, and the volatile paths and allowed headers of any of them. */
  lemma {:induction false} StitchedExact(files: seq<Option<File>>)
    ensures Stitched(files).interactions == AllInteractions(files)
    ensures Stitched(files).contract == FirstContract(files)
    ensures forall x :: x in VolatilePaths(Stitched(files).spec)
                        <==> exists f <- files :: f.Some? && x in VolatilePaths(f.value.spec)
    ensures forall x :: x in AllowedHeaders(Stitched(files).spec)
                        <==> exists f <- files :: f.Some? && x in AllowedHeaders(f.value.spec)
  {
    if files != [] {
      var n := |files| - 1;
      var init, last := files[..n], files[n];
      assert files == init + [last];
      StitchedExact(init);
      AllInteractionsSnoc(init, last);
      NothingAdded(AllInteractions(init));
      if last.Some? { CarryExact(Stitched(init).spec, last.value.spec); }
      FirstContractSnoc(init, last);
    }
  }

  // ---------------------------------------------------------------- split

  /** The interactions an axis puts under a name, in recorded order. */
  function Part(axis: Interaction -> string, items: seq<Interaction>, name: string): seq<Interaction> {
    if items == [] then []
    else
      var n := |items| - 1;
      Part(axis, items[..n], name) + if axis(items[n]) == name then [items[n]] else []
  }

  function Names(axis: Interaction -> string, items: seq<Interaction>): set<string> {
    set i | 0 <= i < |items| :: axis(items[i])
  }

  function PartFile(axis: Interaction -> string, f: File, name: string): File {
    File("", None, Carry(None, f.spec), Part(axis, f.interactions, name))
  }

  method Split(axis: Interaction -> string, f: File) returns (groups: map<string, File>)
    ensures groups.Keys == Names(axis, f.interactions)
    ensures forall name <- groups :: groups[name] == PartFile(axis, f, name)
  {
    groups := map[];
    var i := 0;
    while i < |f.interactions|
      invariant 0 <= i <= |f.interactions| && groups.Keys == Names(axis, f.interactions[..i])
      invariant forall name <- groups :: groups[name] == PartFile(axis, f.(interactions := f.interactions[..i]), name)
    {
      var it := f.interactions[i];
      var name := axis(it);
      PartGrows(axis, f.interactions[..i], it);
      assert f.interactions[..i + 1] == f.interactions[..i] + [it];
      if name !in groups {
        PartAbsent(axis, f.interactions[..i], name);
        var spec := CarryMatch(None, f.spec);
        groups := groups[name := File("", None, spec, [])];
      }
      groups := groups[name := groups[name].(interactions := groups[name].interactions + [it])];
      i := i + 1;
    }
    assert f.interactions[..|f.interactions|] == f.interactions;
  }

  lemma PartGrows(axis: Interaction -> string, items: seq<Interaction>, it: Interaction)
    ensures Names(axis, items + [it]) == Names(axis, items) + {axis(it)}
    ensures forall name :: Part(axis, items + [it], name) == Part(axis, items, name) + if axis(it) == name then [it] else []
  {
    var all := items + [it];
    assert all[..|items|] == items;
    forall x ensures x in Names(axis, all) <==> x in Names(axis, items) + {axis(it)} {
      if x in Names(axis, items) {
        var i :| 0 <= i < |items| && axis(items[i]) == x;
        assert axis(all[i]) == x;
      }
      if x == axis(it) { assert axis(all[|items|]) == x; }
      if x in Names(axis, all) {
        var i :| 0 <= i < |all| && axis(all[i]) == x;
        if i < |items| { assert axis(items[i]) == x; }
      }
    }
  }

  lemma {:induction false} PartAbsent(axis: Interaction -> string, items: seq<Interaction>, name: string)
    requires name !in Names(axis, items)
    ensures Part(axis, items, name) == []
  {
    if items != [] {
      var n := |items| - 1;
      assert axis(items[n]) in Names(axis, items);
      forall i | 0 <= i < n ensures axis(items[..n][i]) in Names(axis, items) { assert axis(items[i]) in Names(axis, items); }
      PartAbsent(axis, items[..n], name);
    }
  }

  // ---------------------------------------------------------------- what replay can tell apart

  type KeyFn = Interaction -> Option<string>

  function KeysBy(keyOf: KeyFn, items: seq<Interaction>): (r: Keys)
    ensures |r| == |items|
  {
    MapSeq(keyOf, items)
  }

  /** The responses recorded under a key, in order. */
  function Replies(keyOf: KeyFn, items: seq<Interaction>, key: string): seq<Response> {
    if items == [] then []
    else
      var n := |items| - 1;
      Replies(keyOf, items[..n], key) + if keyOf(items[n]) == Some(key) then [items[n].response] else []
  }

  /** What a replay of a recording answers to the last of a history of requests. */
  function Answered(keyOf: KeyFn, items: seq<Interaction>, policy: Policy, requests: seq<string>, t: nat): Option<Response>
    requires t < |requests|
  {
    var a := Run(KeysBy(keyOf, items), policy, START, requests).answers[t];
    if a.Some? && a.value < |items| then Some(items[a.value].response) else None
  }

  lemma {:induction false} GroupReplies(keyOf: KeyFn, items: seq<Interaction>, key: string)
    ensures var g := Group(KeysBy(keyOf, items), key); var r := Replies(keyOf, items, key);
      && |g| == |r|
      && forall i | 0 <= i < |g| :: g[i] < |items| && items[g[i]].response == r[i]
  {
    if items != [] {
      var n := |items| - 1;
      GroupReplies(keyOf, items[..n], key);
      assert items == items[..n] + [items[n]] && [items[n]][1..] == [];
      MapSeqAppend(keyOf, items[..n], [items[n]]);
      assert KeysBy(keyOf, items)[..n] == KeysBy(keyOf, items[..n]);
    }
  }

  lemma AnsweredIs(keyOf: KeyFn, items: seq<Interaction>, policy: Policy, requests: seq<string>, t: nat)
    requires t < |requests|
    ensures Answered(keyOf, items, policy, requests, t)
         == Reply(Replies(keyOf, items, requests[t]), Times(requests[..t], requests[t]), policy)
  {
    OrderedReplay(KeysBy(keyOf, items), policy, requests, t);
    GroupReplies(keyOf, items, requests[t]);
  }

  /** For each key, the recorded responses can never be told apart. */
  ghost predicate SameReplies(keyOf: KeyFn, a: seq<Interaction>, b: seq<Interaction>, policy: Policy) {
    forall key :: SameUnder(Replies(keyOf, a, key), Replies(keyOf, b, key), policy)
  }

  /** The two recordings answer every run of requests alike. */
  ghost predicate Equivalent(keyOf: KeyFn, a: seq<Interaction>, b: seq<Interaction>, policy: Policy) {
    forall requests: seq<string>, t: nat | t < |requests| ::
      Answered(keyOf, a, policy, requests, t) == Answered(keyOf, b, policy, requests, t)
  }

  function Asked(key: string, n: nat): (r: seq<string>)
    ensures |r| == n && forall i | 0 <= i < n :: r[i] == key
  {
    if n == 0 then [] else Asked(key, n - 1) + [key]
  }

  lemma {:induction false} AskedTimes(key: string, n: nat, t: nat)
    requires t <= n
    ensures Times(Asked(key, n)[..t], key) == t
  {
    if t > 0 {
      AskedTimes(key, n, t - 1);
      assert Asked(key, n)[..t] == Asked(key, n)[..t - 1] + [key];
      TimesOne(Asked(key, n)[..t - 1], key, key);
    }
  }

  /** Under every policy, replay tells two recordings apart exactly by the ordered responses of each
      key: unequal ones when over-consumption fails, unequal up to a repeated last one when the last is
      repeated, not rounds of one word when they are cycled through. */
  lemma EquivalentIff(keyOf: KeyFn, a: seq<Interaction>, b: seq<Interaction>, policy: Policy)
    ensures Equivalent(keyOf, a, b, policy) <==> SameReplies(keyOf, a, b, policy)
  {
    if SameReplies(keyOf, a, b, policy) {
      forall requests: seq<string>, t: nat | t < |requests|
        ensures Answered(keyOf, a, policy, requests, t) == Answered(keyOf, b, policy, requests, t)
      {
        AnsweredIs(keyOf, a, policy, requests, t);
        AnsweredIs(keyOf, b, policy, requests, t);
        AlikeIff(Replies(keyOf, a, requests[t]), Replies(keyOf, b, requests[t]), policy);
      }
    }
    if Equivalent(keyOf, a, b, policy) {
      forall key ensures SameUnder(Replies(keyOf, a, key), Replies(keyOf, b, key), policy) {
        RepliesAlike(keyOf, a, b, key, policy);
      }
    }
  }

  lemma RepliesAlike(keyOf: KeyFn, a: seq<Interaction>, b: seq<Interaction>, key: string, policy: Policy)
    requires Equivalent(keyOf, a, b, policy)
    ensures SameUnder(Replies(keyOf, a, key), Replies(keyOf, b, key), policy)
  {
    var ra, rb := Replies(keyOf, a, key), Replies(keyOf, b, key);
    forall i: nat ensures Reply(ra, i, policy) == Reply(rb, i, policy) {
      var requests := Asked(key, i + 1);
      AskedTimes(key, i + 1, i);
      AnsweredIs(keyOf, a, policy, requests, i);
      AnsweredIs(keyOf, b, policy, requests, i);
      assert Answered(keyOf, a, policy, requests, i) == Answered(keyOf, b, policy, requests, i);
    }
    AlikeIff(ra, rb, policy);
  }

  /** Equal lists of responses are alike under every policy. */
  lemma EqualRepliesAlike(keyOf: KeyFn, a: seq<Interaction>, b: seq<Interaction>, policy: Policy)
    requires forall key :: Replies(keyOf, a, key) == Replies(keyOf, b, key)
    ensures Equivalent(keyOf, a, b, policy)
  {
    forall key ensures SameUnder(Replies(keyOf, a, key), Replies(keyOf, b, key), policy) {
      assert Replies(keyOf, a, key) == Replies(keyOf, b, key);
    }
    EquivalentIff(keyOf, a, b, policy);
  }

  // ---------------------------------------------------------------- splitting and stitching back

  function Parts(axis: Interaction -> string, f: File, order: seq<string>): (r: seq<Option<File>>)
    ensures |r| == |order|
  {
    if order == [] then []
    else Parts(axis, f, order[..|order| - 1]) + [Some(PartFile(axis, f, order[|order| - 1]))]
  }

  lemma RepliesSnoc(keyOf: KeyFn, items: seq<Interaction>, x: Interaction, key: string)
    ensures Replies(keyOf, items + [x], key) == Replies(keyOf, items, key) + if keyOf(x) == Some(key) then [x.response] else []
  {
    assert (items + [x])[..|items|] == items;
  }

  lemma {:induction false} RepliesAppend(keyOf: KeyFn, a: seq<Interaction>, b: seq<Interaction>, key: string)
    ensures Replies(keyOf, a + b, key) == Replies(keyOf, a, key) + Replies(keyOf, b, key)
    decreases |b|
  {
    if b == [] {
      assert a + b == a;
    } else {
      var n := |b| - 1;
      assert (a + b)[..|a| + n] == a + b[..n];
      RepliesAppend(keyOf, a, b[..n], key);
    }
  }

  /** Interactions of one key are in one part. */
  ghost predicate Respects(axis: Interaction -> string, keyOf: KeyFn, items: seq<Interaction>) {
    forall i, j | 0 <= i < |items| && 0 <= j < |items| ::
      keyOf(items[i]).Some? && keyOf(items[i]) == keyOf(items[j]) ==> axis(items[i]) == axis(items[j])
  }

  /** A part has all responses of a key or none. */
  lemma {:induction false} PartReplies(axis: Interaction -> string, keyOf: KeyFn, items: seq<Interaction>, name: string,
                                         key: string)
    requires forall i | 0 <= i < |items| && keyOf(items[i]) == Some(key) :: axis(items[i]) == name
    ensures Replies(keyOf, Part(axis, items, name), key) == Replies(keyOf, items, key)
  {
    if items != [] {
      var n := |items| - 1;
      forall i | 0 <= i < n && keyOf(items[..n][i]) == Some(key) ensures axis(items[..n][i]) == name {
        assert items[..n][i] == items[i];
      }
      PartReplies(axis, keyOf, items[..n], name, key);
      var p := Part(axis, items[..n], name);
      if axis(items[n]) == name { assert (p + [items[n]])[..|p|] == p; }
      else { assert p + [] == p; }
    }
  }

  lemma {:induction false} PartSilent(axis: Interaction -> string, keyOf: KeyFn, items: seq<Interaction>, name: string,
                                        key: string)
    requires forall i | 0 <= i < |items| && keyOf(items[i]) == Some(key) :: axis(items[i]) != name
    ensures Replies(keyOf, Part(axis, items, name), key) == []
  {
    if items != [] {
      var n := |items| - 1;
      forall i | 0 <= i < n && keyOf(items[..n][i]) == Some(key) ensures axis(items[..n][i]) != name {
        assert items[..n][i] == items[i];
      }
      PartSilent(axis, keyOf, items[..n], name, key);
      var p := Part(axis, items[..n], name);
      if axis(items[n]) == name { assert (p + [items[n]])[..|p|] == p; }
      else { assert p + [] == p; }
    }
  }

  predicate Distinct(order: seq<string>) {
    forall i, j | 0 <= i < j < |order| :: order[i] != order[j]
  }

  lemma StitchOne(axis: Interaction -> string, keyOf: KeyFn, f: File, order: seq<string>, key: string)
    requires order != []
    ensures var n := |order| - 1;
      Replies(keyOf, Stitched(Parts(axis, f, order)).interactions, key)
        == Replies(keyOf, Stitched(Parts(axis, f, order[..n])).interactions, key)
         + Replies(keyOf, Part(axis, f.interactions, order[n]), key)
  {
    var n := |order| - 1;
    var before := Parts(axis, f, order[..n]);
    assert Parts(axis, f, order)[..n] == before;
    RepliesAppend(keyOf, Stitched(before).interactions, Part(axis, f.interactions, order[n]), key);
  }

  /** The stitched parts hold, of a key, what its own part holds, once that part has been added. */
  lemma {:induction false} StitchedReplies(axis: Interaction -> string, keyOf: KeyFn, f: File, order: seq<string>,
                                             key: string, home: string)
    requires Distinct(order)
    requires forall i | 0 <= i < |f.interactions| && keyOf(f.interactions[i]) == Some(key) :: axis(f.interactions[i]) == home
    ensures Replies(keyOf, Stitched(Parts(axis, f, order)).interactions, key)
         == if home in order then Replies(keyOf, f.interactions, key) else []
  {
    if order != [] {
      var n := |order| - 1;
      StitchOne(axis, keyOf, f, order, key);
      StitchedReplies(axis, keyOf, f, order[..n], key, home);
      HomeReplies(axis, keyOf, f.interactions, order[n], key, home);
      LastOnce(order, home);
      NothingAdded(Replies(keyOf, Stitched(Parts(axis, f, order[..n])).interactions, key));
      NothingAdded(Replies(keyOf, f.interactions, key));
    }
  }

  lemma HomeReplies(axis: Interaction -> string, keyOf: KeyFn, items: seq<Interaction>, name: string, key: string, home: string)
    requires forall i | 0 <= i < |items| && keyOf(items[i]) == Some(key) :: axis(items[i]) == home
    ensures Replies(keyOf, Part(axis, items, name), key) == if name == home then Replies(keyOf, items, key) else []
  {
    if name == home { PartReplies(axis, keyOf, items, home, key); } else { PartSilent(axis, keyOf, items, name, key); }
  }

  lemma LastOnce(order: seq<string>, home: string)
    requires Distinct(order) && order != []
    ensures var n := |order| - 1; Distinct(order[..n]) && (home in order <==> home in order[..n] || order[n] == home)
    ensures var n := |order| - 1; order[n] == home ==> home !in order[..n]
  {
    assert order == order[..|order| - 1] + [order[|order| - 1]];
  }

  lemma {:induction false} NoKeyNoReplies(keyOf: KeyFn, items: seq<Interaction>, key: string)
    requires forall i | 0 <= i < |items| :: keyOf(items[i]) != Some(key)
    ensures Replies(keyOf, items, key) == []
  {
    if items != [] {
      var n := |items| - 1;
      assert forall i | 0 <= i < n :: items[..n][i] == items[i];
      NoKeyNoReplies(keyOf, items[..n], key);
    }
  }

  /** Splitting along an axis that keeps the interactions of a key together, and stitching the parts
      back in any order, gives a recording no run of requests can tell from the original, under any
      exhaustion policy. */
  lemma SplitStitchEquivalent(axis: Interaction -> string, keyOf: KeyFn, f: File, order: seq<string>, policy: Policy)
    requires Respects(axis, keyOf, f.interactions) && Distinct(order) && Elements(order) == Names(axis, f.interactions)
    ensures Equivalent(keyOf, Stitched(Parts(axis, f, order)).interactions, f.interactions, policy)
  {
    var stitched := Stitched(Parts(axis, f, order)).interactions;
    var items := f.interactions;
    forall key ensures Replies(keyOf, stitched, key) == Replies(keyOf, items, key) {
      if exists i :: 0 <= i < |items| && keyOf(items[i]) == Some(key) {
        var i :| 0 <= i < |items| && keyOf(items[i]) == Some(key);
        StitchedReplies(axis, keyOf, f, order, key, axis(items[i]));
        assert axis(items[i]) in Names(axis, items);
        assert axis(items[i]) in Elements(order);
      } else {
        var home := "";
        StitchedReplies(axis, keyOf, f, order, key, home);
        NoKeyNoReplies(keyOf, items, key);
      }
    }
    EqualRepliesAlike(keyOf, stitched, items, policy);
  }

  // ---------------------------------------------------------------- exactly then

  /** No two interactions of a key have the same response. */
  predicate DistinctAnswers(keyOf: KeyFn, items: seq<Interaction>) {
    forall i, j | 0 <= i < j < |items| ::
      keyOf(items[i]).Some? && keyOf(items[i]) == keyOf(items[j]) ==> items[i].response != items[j].response
  }

  lemma {:induction false} Enumerate(names: set<string>) returns (order: seq<string>)
    ensures Distinct(order) && Elements(order) == names
  {
    if names == {} {
      order := [];
    } else {
      var x :| x in names;
      var rest := Enumerate(names - {x});
      order := [x] + rest;
      OneBefore(x, rest);
    }
  }

  lemma OneBefore(x: string, rest: seq<string>)
    requires Distinct(rest) && x !in Elements(rest)
    ensures Distinct([x] + rest) && Elements([x] + rest) == {x} + Elements(rest)
  {
    assert forall y :: y in [x] + rest <==> y == x || y in rest;
    assert forall y <- rest :: y in Elements(rest);
  }

  /** What the first part answers comes first. */
  lemma {:induction false} FirstPartFirst(axis: Interaction -> string, keyOf: KeyFn, f: File, order: seq<string>, key: string)
    requires order != []
    ensures Replies(keyOf, Part(axis, f.interactions, order[0]), key)
         <= Replies(keyOf, Stitched(Parts(axis, f, order)).interactions, key)
  {
    StitchOne(axis, keyOf, f, order, key);
    var n := |order| - 1;
    if n > 0 {
      FirstPartFirst(axis, keyOf, f, order[..n], key);
    } else {
      assert Stitched(Parts(axis, f, order[..0])).interactions == [];
    }
  }

  /** An interaction of the key in a part: the part has responses for the key, each from such an
      interaction. */
  lemma {:induction false} PartHasReply(axis: Interaction -> string, keyOf: KeyFn, items: seq<Interaction>, name: string,
                                        key: string, i: nat)
    requires i < |items| && keyOf(items[i]) == Some(key) && axis(items[i]) == name
    ensures Replies(keyOf, Part(axis, items, name), key) != []
  {
    var n := |items| - 1;
    var p := Part(axis, items[..n], name);
    assert (p + [items[n]])[..|p|] == p;
    assert p + [] == p;
    if i < n { PartHasReply(axis, keyOf, items[..n], name, key, i); }
  }

  lemma {:induction false} ReplyFrom(axis: Interaction -> string, keyOf: KeyFn, items: seq<Interaction>, name: string,
                                     key: string, k: nat) returns (i: nat)
    requires k < |Replies(keyOf, Part(axis, items, name), key)|
    ensures i < |items| && keyOf(items[i]) == Some(key) && axis(items[i]) == name
    ensures items[i].response == Replies(keyOf, Part(axis, items, name), key)[k]
  {
    var n := |items| - 1;
    var p := Part(axis, items[..n], name);
    assert (p + [items[n]])[..|p|] == p;
    assert p + [] == p;
    if k < |Replies(keyOf, p, key)| { i := ReplyFrom(axis, keyOf, items[..n], name, key, k); } else { i := n; }
  }

  ghost predicate AllOrdersEquivalent(axis: Interaction -> string, keyOf: KeyFn, f: File, policy: Policy) {
    forall order | Distinct(order) && Elements(order) == Names(axis, f.interactions) ::
      Equivalent(keyOf, Stitched(Parts(axis, f, order)).interactions, f.interactions, policy)
  }

  /** The first answer to a key is the first response of the part that was stitched first. */
  lemma FirstAnswer(axis: Interaction -> string, keyOf: KeyFn, f: File, order: seq<string>, key: string, policy: Policy)
    requires order != [] && Replies(keyOf, Part(axis, f.interactions, order[0]), key) != []
    ensures Answered(keyOf, Stitched(Parts(axis, f, order)).interactions, policy, [key], 0)
         == Some(Replies(keyOf, Part(axis, f.interactions, order[0]), key)[0])
  {
    FirstPartFirst(axis, keyOf, f, order, key);
    AnsweredIs(keyOf, Stitched(Parts(axis, f, order)).interactions, policy, [key], 0);
    assert [key][..0] == [];
  }

  lemma FirstAgrees(axis: Interaction -> string, keyOf: KeyFn, f: File, order: seq<string>, key: string, policy: Policy)
    requires AllOrdersEquivalent(axis, keyOf, f, policy) && Distinct(order) && Elements(order) == Names(axis, f.interactions)
    requires order != [] && Replies(keyOf, Part(axis, f.interactions, order[0]), key) != []
    ensures Answered(keyOf, f.interactions, policy, [key], 0)
         == Some(Replies(keyOf, Part(axis, f.interactions, order[0]), key)[0])
  {
    FirstAnswer(axis, keyOf, f, order, key, policy);
    assert Equivalent(keyOf, Stitched(Parts(axis, f, order)).interactions, f.interactions, policy);
  }

  lemma Listed(names: set<string>, p: string, q: string) returns (order: seq<string>)
    requires p in names && q in names && p != q
    ensures Distinct(order) && Elements(order) == names && order != [] && order[0] == p
  {
    var rest := Enumerate(names - {p});
    order := [p] + rest;
    OneBefore(p, rest);
  }

  /** A key in two parts with different answers shows in some order of stitching. */
  lemma SeparatedShows(axis: Interaction -> string, keyOf: KeyFn, f: File, policy: Policy, i: nat, j: nat)
    requires DistinctAnswers(keyOf, f.interactions) && i < |f.interactions| && j < |f.interactions|
    requires keyOf(f.interactions[i]).Some? && keyOf(f.interactions[i]) == keyOf(f.interactions[j])
    requires axis(f.interactions[i]) != axis(f.interactions[j])
    ensures !AllOrdersEquivalent(axis, keyOf, f, policy)
  {
    var items := f.interactions;
    var key, p, q := keyOf(items[i]).value, axis(items[i]), axis(items[j]);
    assert p in Names(axis, items) && q in Names(axis, items);
    var first := Listed(Names(axis, items), p, q);
    var second := Listed(Names(axis, items), q, p);
    PartHasReply(axis, keyOf, items, p, key, i);
    PartHasReply(axis, keyOf, items, q, key, j);
    var a := ReplyFrom(axis, keyOf, items, p, key, 0);
    var b := ReplyFrom(axis, keyOf, items, q, key, 0);
    assert items[a].response != items[b].response;
    if AllOrdersEquivalent(axis, keyOf, f, policy) {
      FirstAgrees(axis, keyOf, f, first, key, policy);
      FirstAgrees(axis, keyOf, f, second, key, policy);
    }
  }

  /** Where the responses of each key differ, stitching the parts back in every order replays like the
      original, under any policy, exactly when the axis keeps the interactions of a key together. */
  lemma SplitStitchIff(axis: Interaction -> string, keyOf: KeyFn, f: File, policy: Policy)
    requires DistinctAnswers(keyOf, f.interactions)
    ensures AllOrdersEquivalent(axis, keyOf, f, policy) <==> Respects(axis, keyOf, f.interactions)
  {
    var items := f.interactions;
    if Respects(axis, keyOf, items) {
      forall order | Distinct(order) && Elements(order) == Names(axis, items)
        ensures Equivalent(keyOf, Stitched(Parts(axis, f, order)).interactions, items, policy)
      {
        SplitStitchEquivalent(axis, keyOf, f, order, policy);
      }
    } else {
      var i, j :| 0 <= i < |items| && 0 <= j < |items| && keyOf(items[i]).Some? && keyOf(items[i]) == keyOf(items[j])
                  && axis(items[i]) != axis(items[j]);
      SeparatedShows(axis, keyOf, f, policy, i, j);
    }
  }

  // ---------------------------------------------------------------- the settings of the parts

  /** The stitched parts hold exactly the match settings of the original. */
  lemma {:induction false} PartsSettings(axis: Interaction -> string, f: File, order: seq<string>)
    ensures var s := Stitched(Parts(axis, f, order)).spec;
      if order == [] then s.None?
      else
        && (s.Some? <==> f.spec.Some?)
        && SameStrings(VolatilePaths(s), VolatilePaths(f.spec)) && SameStrings(AllowedHeaders(s), AllowedHeaders(f.spec))
  {
    if order != [] {
      var n := |order| - 1;
      var before := Parts(axis, f, order[..n]);
      assert Parts(axis, f, order)[..n] == before;
      PartsSettings(axis, f, order[..n]);
      CarryExact(None, f.spec);
      CarryExact(Stitched(before).spec, Carry(None, f.spec));
    }
  }

  lemma RepliesOfTwo(keyOf: KeyFn, x: Interaction, y: Interaction, key: string)
    requires keyOf(x) == Some(key) && keyOf(y) == Some(key)
    ensures Replies(keyOf, [x, y], key) == [x.response, y.response]
  {
    assert [x, y][..1] == [x] && [x][..0] == [];
    assert Replies(keyOf, [], key) == [];
    assert [] + [x.response] == [x.response];
  }

  lemma PartsOfTwo(axis: Interaction -> string, f: File, x: Interaction, y: Interaction)
    requires f.interactions == [x, y] && axis(x) != axis(y)
    ensures Stitched(Parts(axis, f, [axis(y), axis(x)])).interactions == [y, x]
  {
    assert [x, y][..1] == [x] && [x][..0] == [];
    assert Part(axis, [], axis(x)) == [] && Part(axis, [], axis(y)) == [];
    assert Part(axis, [x, y], axis(y)) == [y] && Part(axis, [x, y], axis(x)) == [x];
    var order := [axis(y), axis(x)];
    assert order[..1] == [axis(y)] && order[..1][..0] == [];
    var parts := Parts(axis, f, order);
    assert Parts(axis, f, []) == [] && Parts(axis, f, [axis(y)]) == [] + [Some(PartFile(axis, f, axis(y)))];
    assert parts == [Some(PartFile(axis, f, axis(y)))] + [Some(PartFile(axis, f, axis(x)))];
    assert parts[..1] == [parts[0]] && parts[..1][..0] == [];
    assert Stitched(parts[..1]).interactions == [] + [y];
    assert [] + [y] + [x] == [y, x];
  }

  /** An axis that separates two interactions of one key, as the tool axis can, loses their order: with
      the parts stitched the other way round, the first request gets the second response. */
  lemma SeparatedKeyReorders(axis: Interaction -> string, keyOf: KeyFn, f: File, x: Interaction, y: Interaction, key: string)
    requires f.interactions == [x, y] && axis(x) != axis(y)
    requires keyOf(x) == Some(key) && keyOf(y) == Some(key) && x.response != y.response
    ensures !Equivalent(keyOf, Stitched(Parts(axis, f, [axis(y), axis(x)])).interactions, f.interactions, Fail)
  {
    PartsOfTwo(axis, f, x, y);
    RepliesOfTwo(keyOf, x, y, key);
    RepliesOfTwo(keyOf, y, x, key);
    EquivalentIff(keyOf, [y, x], [x, y], Fail);
    assert Replies(keyOf, [y, x], key)[0] != Replies(keyOf, [x, y], key)[0];
  }
}
