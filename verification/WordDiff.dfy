/** The inline word diff: a table, and a walk through it. */
module WordDiff {
  import opened Lists

  datatype Edit = Keep(word: string) | Remove(word: string) | Add(word: string)

  /** The words a script takes from the old text. */
  function Before(script: seq<Edit>): seq<string> {
    if script == [] then []
    else (if script[0].Add? then [] else [script[0].word]) + Before(script[1..])
  }

  /** The words a script leaves in the new text. */
  function After(script: seq<Edit>): seq<string> {
    if script == [] then []
    else (if script[0].Remove? then [] else [script[0].word]) + After(script[1..])
  }

  function Kept(script: seq<Edit>): seq<string> {
    if script == [] then []
    else (if script[0].Keep? then [script[0].word] else []) + Kept(script[1..])
  }

  predicate IsSubsequence(s: seq<string>, a: seq<string>) {
    s == [] || (a != [] && ((s[0] == a[0] && IsSubsequence(s[1..], a[1..])) || IsSubsequence(s, a[1..])))
  }

  // ---------------------------------------------------------------- the table and the walk

  /** What the table holds at (i, j). */
  function Common(a: seq<string>, b: seq<string>, i: nat, j: nat): nat
    requires i <= |a| && j <= |b|
    decreases |a| - i + |b| - j
  {
    if i == |a| || j == |b| then 0
    else if a[i] == b[j] then Common(a, b, i + 1, j + 1) + 1
    else if Common(a, b, i + 1, j) >= Common(a, b, i, j + 1) then Common(a, b, i + 1, j)
    else Common(a, b, i, j + 1)
  }

  /** What the walk writes next at (i, j), and where it goes. */
  function Turn(a: seq<string>, b: seq<string>, i: nat, j: nat): (t: (Edit, nat, nat))
    requires i <= |a| && j <= |b| && (i < |a| || j < |b|)
    ensures t.1 <= |a| && t.2 <= |b| && i <= t.1 && j <= t.2 && i + j < t.1 + t.2
  {
    if i < |a| && j < |b| && a[i] == b[j] then (Keep(a[i]), i + 1, j + 1)
    else if i < |a| && (j == |b| || Common(a, b, i + 1, j) >= Common(a, b, i, j + 1)) then (Remove(a[i]), i + 1, j)
    else (Add(b[j]), i, j + 1)
  }

  /** What the walk writes from (i, j) on. */
  function Script(a: seq<string>, b: seq<string>, i: nat, j: nat): seq<Edit>
    requires i <= |a| && j <= |b|
    decreases |a| - i + |b| - j
  {
    if i == |a| && j == |b| then []
    else var t := Turn(a, b, i, j); [t.0] + Script(a, b, t.1, t.2)
  }

  /** The table is right in row i from column j on, and in every row below. */
  ghost predicate Filled(a: seq<string>, b: seq<string>, lcs: array2<nat>, i: int, j: int)
    reads lcs
  {
    && lcs.Length0 == |a| + 1 && lcs.Length1 == |b| + 1
    && forall r, c | 0 <= r <= |a| && 0 <= c <= |b| && (r > i || (r == i && c >= j)) ::
      lcs[r, c] == Common(a, b, r, c)
  }

  method Table(a: seq<string>, b: seq<string>) returns (lcs: array2<nat>)
    ensures fresh(lcs) && Filled(a, b, lcs, 0, 0)
  {
    lcs := new nat[|a| + 1, |b| + 1]((_, _) => 0);
    var i := |a| - 1;
    while i >= 0
      invariant -1 <= i < |a| && Filled(a, b, lcs, i, |b|)
      invariant forall r | 0 <= r <= |a| :: lcs[r, |b|] == 0
      invariant i == -1 ==> Filled(a, b, lcs, 0, 0)
    {
      var j := |b| - 1;
      while j >= 0
        invariant -1 <= j < |b| && Filled(a, b, lcs, i, j + 1)
        invariant forall r | 0 <= r <= |a| :: lcs[r, |b|] == 0
      {
        if a[i] == b[j] {
          lcs[i, j] := lcs[i + 1, j + 1] + 1;
        } else if lcs[i + 1, j] >= lcs[i, j + 1] {
          lcs[i, j] := lcs[i + 1, j];
        } else {
          lcs[i, j] := lcs[i, j + 1];
        }
        j := j - 1;
      }
      i := i - 1;
    }
  }

  /** One more edit written. */
  predicate Written(a: seq<string>, b: seq<string>, out: seq<Edit>, i: int, j: int) {
    0 <= i <= |a| && 0 <= j <= |b| && Script(a, b, 0, 0) == out + Script(a, b, i, j)
  }

  lemma WriteOne(a: seq<string>, b: seq<string>, out: seq<Edit>, i: nat, j: nat)
    requires Written(a, b, out, i, j) && (i < |a| || j < |b|)
    ensures var t := Turn(a, b, i, j); Written(a, b, out + [t.0], t.1, t.2)
  {
    var t := Turn(a, b, i, j);
    Assoc(out, [t.0], Script(a, b, t.1, t.2));
  }

  method WordDiff(a: seq<string>, b: seq<string>) returns (out: seq<Edit>)
    ensures out == Script(a, b, 0, 0)
  {
    var lcs := Table(a, b);
    out := [];
    var i, j := 0, 0;
    while i < |a| && j < |b|
      invariant Written(a, b, out, i, j) && Filled(a, b, lcs, 0, 0)
      decreases |a| - i + |b| - j
    {
      if a[i] == b[j] {
        WriteOne(a, b, out, i, j);
        out := out + [Keep(a[i])];
        i, j := i + 1, j + 1;
      } else if lcs[i + 1, j] >= lcs[i, j + 1] {
        WriteOne(a, b, out, i, j);
        out := out + [Remove(a[i])];
        i := i + 1;
      } else {
        WriteOne(a, b, out, i, j);
        out := out + [Add(b[j])];
        j := j + 1;
      }
    }
    while i < |a|
      invariant Written(a, b, out, i, j) && (i < |a| ==> j == |b|)
    {
      WriteOne(a, b, out, i, j);
      out := out + [Remove(a[i])];
      i := i + 1;
    }
    while j < |b|
      invariant Written(a, b, out, i, j) && i == |a|
    {
      WriteOne(a, b, out, i, j);
      out := out + [Add(b[j])];
      j := j + 1;
    }
  }

  // ---------------------------------------------------------------- the script spells both texts

  lemma FirstEdit(e: Edit, rest: seq<Edit>)
    ensures Before([e] + rest) == (if e.Add? then [] else [e.word]) + Before(rest)
    ensures After([e] + rest) == (if e.Remove? then [] else [e.word]) + After(rest)
    ensures Kept([e] + rest) == (if e.Keep? then [e.word] else []) + Kept(rest)
  {
    assert ([e] + rest)[1..] == rest;
  }

  lemma Suffix(a: seq<string>, i: nat)
    requires i < |a|
    ensures a[i..] == [a[i]] + a[i + 1..]
  {
  }

  /** What was kept and removed spells the old text, what was kept and added the new one. */
  lemma {:induction false} SpellsBoth(a: seq<string>, b: seq<string>, i: nat, j: nat)
    requires i <= |a| && j <= |b|
    ensures Before(Script(a, b, i, j)) == a[i..] && After(Script(a, b, i, j)) == b[j..]
    ensures |Kept(Script(a, b, i, j))| == Common(a, b, i, j)
    decreases |a| - i + |b| - j
  {
    if i < |a| { Suffix(a, i); }
    if j < |b| { Suffix(b, j); }
    if i < |a| || j < |b| {
      var t := Turn(a, b, i, j);
      FirstEdit(t.0, Script(a, b, t.1, t.2));
      SpellsBoth(a, b, t.1, t.2);
    }
  }

  /** In any script, what is kept is a common subsequence of the two texts, and the script is as
      long as the two texts less what is kept. */
  lemma {:induction false} KeptIsCommon(script: seq<Edit>)
    ensures IsSubsequence(Kept(script), Before(script)) && IsSubsequence(Kept(script), After(script))
    ensures |script| == |Before(script)| + |After(script)| - |Kept(script)|
  {
    if script != [] {
      var e, rest := script[0], script[1..];
      KeptIsCommon(rest);
      match e
      case Keep(w) =>
        BothLonger(w, Kept(rest), Before(rest));
        BothLonger(w, Kept(rest), After(rest));
      case Remove(w) =>
        assert ([w] + Before(rest))[1..] == Before(rest);
        Longer(Kept(rest), [w] + Before(rest));
        assert [] + Kept(rest) == Kept(rest) && [] + After(rest) == After(rest);
      case Add(w) =>
        assert ([w] + After(rest))[1..] == After(rest);
        Longer(Kept(rest), [w] + After(rest));
        assert [] + Kept(rest) == Kept(rest) && [] + Before(rest) == Before(rest);
    }
  }

  // ---------------------------------------------------------------- no script keeps more

  lemma {:induction false} Shorter(s: seq<string>, a: seq<string>)
    requires IsSubsequence(s, a) && s != []
    ensures a != [] && IsSubsequence(s[1..], a[1..])
  {
    if !(s[0] == a[0] && IsSubsequence(s[1..], a[1..])) {
      Shorter(s, a[1..]);
      Longer(s[1..], a[1..]);
    }
  }

  lemma BothLonger(w: string, s: seq<string>, a: seq<string>)
    requires IsSubsequence(s, a)
    ensures IsSubsequence([w] + s, [w] + a)
  {
    assert ([w] + s)[1..] == s && ([w] + a)[1..] == a;
  }

  lemma Longer(s: seq<string>, a: seq<string>)
    requires a != [] && IsSubsequence(s, a[1..])
    ensures IsSubsequence(s, a)
  {
  }

  lemma {:induction false} NoneLonger(a: seq<string>, b: seq<string>, i: nat, j: nat, s: seq<string>)
    requires i <= |a| && j <= |b| && IsSubsequence(s, a[i..]) && IsSubsequence(s, b[j..])
    ensures |s| <= Common(a, b, i, j)
    decreases |a| - i + |b| - j
  {
    if s != [] {
      Shorter(s, a[i..]);
      Shorter(s, b[j..]);
      assert a[i..][1..] == a[i + 1..] && b[j..][1..] == b[j + 1..];
      if a[i] == b[j] {
        NoneLonger(a, b, i + 1, j + 1, s[1..]);
      } else if s[0] != a[i] {
        NoneLonger(a, b, i + 1, j, s);
      } else {
        NoneLonger(a, b, i, j + 1, s);
      }
    }
  }

  lemma {:induction false} CommonShrinks(a: seq<string>, b: seq<string>, i: nat, j: nat)
    requires i <= |a| && j <= |b|
    ensures i < |a| ==> Common(a, b, i + 1, j) <= Common(a, b, i, j)
    ensures j < |b| ==> Common(a, b, i, j + 1) <= Common(a, b, i, j)
    ensures i < |a| && j < |b| ==> Common(a, b, i, j) <= Common(a, b, i + 1, j + 1) + 1
    decreases |a| - i + |b| - j
  {
    if i < |a| && j < |b| {
      CommonShrinks(a, b, i + 1, j);
      CommonShrinks(a, b, i, j + 1);
      CommonShrinks(a, b, i + 1, j + 1);
    }
  }

  /** Where words are replaced, what is removed comes first: no addition stands right before a removal. */
  lemma {:induction false} RemovalsFirst(a: seq<string>, b: seq<string>, i: nat, j: nat, k: nat)
    requires i <= |a| && j <= |b| && k + 1 < |Script(a, b, i, j)|
    ensures !(Script(a, b, i, j)[k].Add? && Script(a, b, i, j)[k + 1].Remove?)
    decreases k
  {
    var t := Turn(a, b, i, j);
    if k > 0 {
      RemovalsFirst(a, b, t.1, t.2, k - 1);
    } else if t.0.Add? && i < |a| {
      CommonShrinks(a, b, i + 1, j);
    }
  }

  /** What the diff keeps is a longest common subsequence of the two texts. */
  lemma KeepsLongest(a: seq<string>, b: seq<string>, s: seq<string>)
    ensures IsSubsequence(Kept(Script(a, b, 0, 0)), a) && IsSubsequence(Kept(Script(a, b, 0, 0)), b)
    ensures IsSubsequence(s, a) && IsSubsequence(s, b) ==> |s| <= |Kept(Script(a, b, 0, 0))|
  {
    SpellsBoth(a, b, 0, 0);
    assert a[0..] == a && b[0..] == b;
    KeptIsCommon(Script(a, b, 0, 0));
    if IsSubsequence(s, a) && IsSubsequence(s, b) { NoneLonger(a, b, 0, 0, s); }
  }

  /** No script that turns the old text into the new one is shorter. */
  lemma ShortestScript(a: seq<string>, b: seq<string>, script: seq<Edit>)
    requires Before(script) == a && After(script) == b
    ensures |Script(a, b, 0, 0)| <= |script|
  {
    KeptIsCommon(script);
    KeepsLongest(a, b, Kept(script));
    SpellsBoth(a, b, 0, 0);
    assert a[0..] == a && b[0..] == b;
    KeptIsCommon(Script(a, b, 0, 0));
  }
}
