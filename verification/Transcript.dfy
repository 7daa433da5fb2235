/** The normalized view of a model turn, its order-free comparison, and the digest behind Equal. */
module Transcript {
  import opened Lists
  import opened Options
  import opened Json
  import opened Canon
  import opened Records

  datatype ToolCall = ToolCall(name: string, args: string)

  datatype Turn = Turn(role: string, text: string, calls: seq<ToolCall>, finish: string)

  // ---------------------------------------------------------------- the order of tool calls

  predicate CallLess(a: ToolCall, b: ToolCall) {
    if a.name != b.name then Less(a.name, b.name) else Less(a.args, b.args)
  }

  lemma CallLessTotal(a: ToolCall, b: ToolCall)
    ensures CallLess(a, b) || a == b || CallLess(b, a)
  {
    LessTotal(a.name, b.name);
    LessTotal(a.args, b.args);
  }

  lemma CallLessTransitive(a: ToolCall, b: ToolCall, c: ToolCall)
    requires CallLess(a, b) && CallLess(b, c)
    ensures CallLess(a, c)
  {
    if a.name != b.name && b.name != c.name {
      LessTransitive(a.name, b.name, c.name);
      if a.name == c.name { LessIrreflexive(a.name); }
    } else if a.name == b.name == c.name {
      LessTransitive(a.args, b.args, c.args);
    }
  }

  lemma CallLessAsymmetric(a: ToolCall, b: ToolCall)
    requires CallLess(a, b)
    ensures !CallLess(b, a) && a != b
  {
    if a.name != b.name { LessAsymmetric(a.name, b.name); } else { LessAsymmetric(a.args, b.args); }
  }

  predicate SortedCalls(s: seq<ToolCall>) {
    forall i, j | 0 <= i < j < |s| :: !CallLess(s[j], s[i])
  }

  function Insert(c: ToolCall, s: seq<ToolCall>): seq<ToolCall> {
    if s == [] || !CallLess(s[0], c) then [c] + s else [s[0]] + Insert(c, s[1..])
  }

  function SortCalls(s: seq<ToolCall>): seq<ToolCall> {
    if s == [] then [] else Insert(s[0], SortCalls(s[1..]))
  }

  lemma {:induction false} InsertContents(c: ToolCall, s: seq<ToolCall>)
    ensures multiset(Insert(c, s)) == multiset(s) + multiset{c}
  {
    if s != [] {
      assert s == [s[0]] + s[1..];
      InsertContents(c, s[1..]);
    }
  }

  lemma {:induction false} InsertSorted(c: ToolCall, s: seq<ToolCall>)
    requires SortedCalls(s)
    ensures SortedCalls(Insert(c, s))
  {
    if s == [] {
    } else if CallLess(s[0], c) {
      InsertSorted(c, s[1..]);
      var r := Insert(c, s[1..]);
      InsertContents(c, s[1..]);
      forall j | 0 <= j < |r| ensures !CallLess(r[j], s[0]) {
        assert r[j] in multiset(r);
        if r[j] == c { CallLessAsymmetric(s[0], c); } else { assert r[j] in s[1..]; }
      }
      assert Insert(c, s) == [s[0]] + r;
    } else {
      forall j | 0 <= j < |s| ensures !CallLess(s[j], c) {
        if CallLess(s[j], c) {
          CallLessTotal(s[0], s[j]);
          if CallLess(s[0], s[j]) { CallLessTransitive(s[0], s[j], c); }
        }
      }
    }
  }

  /** Sorting keeps the calls and orders them. */
  lemma {:induction false} SortCallsSorts(s: seq<ToolCall>)
    ensures SortedCalls(SortCalls(s)) && multiset(SortCalls(s)) == multiset(s)
  {
    if s != [] {
      assert s == [s[0]] + s[1..];
      SortCallsSorts(s[1..]);
      InsertSorted(s[0], SortCalls(s[1..]));
      InsertContents(s[0], SortCalls(s[1..]));
    }
  }

  /** Calls that compare equal are equal, so the sorted list is determined by its contents; an
      unstable sort has no choice. */
  lemma {:induction false} SortedUnique(a: seq<ToolCall>, b: seq<ToolCall>)
    requires SortedCalls(a) && SortedCalls(b) && multiset(a) == multiset(b)
    ensures a == b
    decreases |a|
  {
    if a == [] {
      assert |multiset(b)| == 0;
    } else {
      assert |multiset(b)| == |a| > 0;
      assert a[0] in multiset(b) && b[0] in multiset(a);
      CallLessTotal(a[0], b[0]);
      assert a[0] == b[0];
      assert a == [a[0]] + a[1..] && b == [b[0]] + b[1..];
      assert multiset(a[1..]) == multiset(a) - multiset{a[0]} == multiset(b[1..]);
      SortedUnique(a[1..], b[1..]);
    }
  }

  lemma SortCallsSame(a: seq<ToolCall>, b: seq<ToolCall>)
    ensures SortCalls(a) == SortCalls(b) <==> multiset(a) == multiset(b)
  {
    SortCallsSorts(a);
    SortCallsSorts(b);
    if multiset(a) == multiset(b) { SortedUnique(SortCalls(a), SortCalls(b)); }
  }

  lemma SortCallsSettles(s: seq<ToolCall>)
    ensures SortCalls(SortCalls(s)) == SortCalls(s) && |SortCalls(s)| == |s|
  {
    SortCallsSorts(s);
    SortCallsSame(SortCalls(s), s);
    assert |multiset(SortCalls(s))| == |multiset(s)|;
  }

  lemma SortThenMap(f: ToolCall -> ToolCall, calls: seq<ToolCall>)
    ensures SortCalls(MapSeq(f, SortCalls(calls))) == SortCalls(MapSeq(f, calls))
  {
    SortCallsSorts(calls);
    MapSeqContents(f, SortCalls(calls), calls);
    SortCallsSame(MapSeq(f, SortCalls(calls)), MapSeq(f, calls));
  }

  // ---------------------------------------------------------------- normalization

  /** A role left out means the assistant. */
  function RoleOf(role: string): string {
    if role == "" then "assistant" else role
  }

  function Normalize(t: Turn): Turn {
    Turn(RoleOf(t.role), t.text, SortCalls(t.calls), t.finish)
  }

  predicate IsNormalized(t: Turn) {
    t.role != "" && SortedCalls(t.calls)
  }

  /** Two turns normalize alike exactly when they differ only in the order of their tool calls and
      in a role left out for "assistant". */
  lemma NormalizeSame(a: Turn, b: Turn)
    ensures Normalize(a) == Normalize(b) <==>
      && a.text == b.text && a.finish == b.finish && multiset(a.calls) == multiset(b.calls)
      && RoleOf(a.role) == RoleOf(b.role)
  {
    SortCallsSame(a.calls, b.calls);
  }

  lemma NormalizeSettles(t: Turn)
    ensures IsNormalized(Normalize(t))
    ensures IsNormalized(t) ==> Normalize(t) == t
  {
    SortCallsSorts(t.calls);
    if SortedCalls(t.calls) { SortedUnique(SortCalls(t.calls), t.calls); }
  }

  // ---------------------------------------------------------------- canonical arguments

  function CanonCall(c: ToolCall): ToolCall {
    ToolCall(c.name, CanonArgs(c.args))
  }

  /** A call whose arguments are put on the wire as a JSON value, the empty object if they are none. */
  function RawCall(c: ToolCall): ToolCall {
    ToolCall(c.name, Print(ArgsValue(c.args)))
  }

  // ---------------------------------------------------------------- the digest

  function CallJson(c: ToolCall): Value {
    Obj(R2("name", Str(c.name), "args", Str(c.args)))
  }

  function CallsJson(cs: seq<ToolCall>): List<Value> {
    if cs == [] then Nil else Cons(CallJson(cs[0]), CallsJson(cs[1..]))
  }

  /** The record the digest is taken over; an empty call list is a nil slice and prints as null. */
  function TurnFields(t: Turn): List<Field> {
    R4("role", Str(t.role), "text", Str(t.text),
       "tool_calls", if t.calls == [] then Null else Arr(CallsJson(t.calls)),
       "finish_reason", Str(t.finish))
  }

  /** What is hashed. */
  function DigestText(t: Turn): string {
    Print(Norm(Obj(TurnFields(Normalize(t)))))
  }

  /** Equality of digests, the hash taken to be injective. */
  predicate Equal(a: Turn, b: Turn) {
    DigestText(a) == DigestText(b)
  }

  lemma {:induction false} CallsJsonPrintable(cs: seq<ToolCall>)
    ensures PrintableItems(CallsJson(cs))
  {
    if cs != [] {
      CallsJsonPrintable(cs[1..]);
    }
  }

  lemma TurnPrintable(t: Turn)
    ensures Printable(Obj(TurnFields(t)))
  {
    CallsJsonPrintable(t.calls);
  }

  lemma CallJsonInjective(a: ToolCall, b: ToolCall)
    requires Norm(CallJson(a)) == Norm(CallJson(b))
    ensures a == b
  {
    assert "args" != "name";
    NormKeepsLookup(CallJson(a).fields, "name");
    NormKeepsLookup(CallJson(b).fields, "name");
    NormKeepsLookup(CallJson(a).fields, "args");
    NormKeepsLookup(CallJson(b).fields, "args");
  }

  lemma {:induction false} CallsJsonInjective(a: seq<ToolCall>, b: seq<ToolCall>)
    requires NormItems(CallsJson(a)) == NormItems(CallsJson(b))
    ensures a == b
    decreases |a|
  {
    if a != [] && b != [] {
      CallJsonInjective(a[0], b[0]);
      CallsJsonInjective(a[1..], b[1..]);
      assert a == [a[0]] + a[1..] && b == [b[0]] + b[1..];
    }
  }

  lemma SameField(fa: List<Field>, fb: List<Field>, key: string)
    requires Norm(Obj(fa)) == Norm(Obj(fb))
    ensures Lookup(fa, key).Some? <==> Lookup(fb, key).Some?
    ensures Lookup(fa, key).Some? ==> Norm(Lookup(fa, key).value) == Norm(Lookup(fb, key).value)
  {
    NormKeepsLookup(fa, key);
    NormKeepsLookup(fb, key);
  }

  lemma TurnLookups(t: Turn)
    ensures Lookup(TurnFields(t), "role") == Some(Str(t.role))
    ensures Lookup(TurnFields(t), "text") == Some(Str(t.text))
    ensures Lookup(TurnFields(t), "finish_reason") == Some(Str(t.finish))
    ensures Lookup(TurnFields(t), "tool_calls") == Some(if t.calls == [] then Null else Arr(CallsJson(t.calls)))
  {
    assert "role"[0] != "text"[0];
  }

  lemma TurnFieldsInjective(a: Turn, b: Turn)
    requires Norm(Obj(TurnFields(a))) == Norm(Obj(TurnFields(b)))
    ensures a == b
  {
    TurnLookups(a);
    TurnLookups(b);
    SameField(TurnFields(a), TurnFields(b), "role");
    SameField(TurnFields(a), TurnFields(b), "text");
    SameField(TurnFields(a), TurnFields(b), "finish_reason");
    SameField(TurnFields(a), TurnFields(b), "tool_calls");
    if a.calls != [] && b.calls != [] { CallsJsonInjective(a.calls, b.calls); }
  }

  /** Equal decides exactly sameness of the normalized turns: the printed digest input loses nothing. */
  lemma EqualIffNormalizedSame(a: Turn, b: Turn)
    ensures Equal(a, b) <==> Normalize(a) == Normalize(b)
  {
    if Equal(a, b) {
      var x, y := Obj(TurnFields(Normalize(a))), Obj(TurnFields(Normalize(b)));
      TurnPrintable(Normalize(a));
      TurnPrintable(Normalize(b));
      NormPrintable(x);
      NormPrintable(y);
      PrintInjective(Norm(x), Norm(y));
      TurnFieldsInjective(Normalize(a), Normalize(b));
    }
  }
}
