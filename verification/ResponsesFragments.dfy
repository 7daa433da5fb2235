/** What deltas add up to. */
module ResponsesFragments {
  import opened Lists
  import opened Texts
  import opened Canon
  import opened Sse
  import opened Transcript
  import opened ToolTables
  import opened Responses

  // ---------------------------------------------------------------- a stream, read without a table

  function TextOf(a: Act): string { if a.AddText? then a.text else "" }

  function StatusOf(a: Act): string { if a.Finish? then a.status else "" }

  /** What an event adds to the arguments of an item. */
  function ArgsFor(a: Act, i: int): string { if a.AddArgs? && a.index == i then a.args else "" }

  function Fragments(acts: seq<Act>, i: int): seq<string> { MapSeq(a => ArgsFor(a, i), acts) }

  predicate Opens(a: Act, i: int) { a.Open? && a.index == i }

  /** The items opened, in order, those opened again listed again. */
  function Opened(acts: seq<Act>): seq<int> {
    if acts == [] then [] else (if acts[0].Open? then [acts[0].index] else []) + Opened(acts[1..])
  }

  /** Where an item was last opened. */
  function LastOpen(acts: seq<Act>, i: int): (k: int)
    ensures -1 <= k < |acts| && (k >= 0 ==> Opens(acts[k], i)) && forall j | k < j < |acts| :: !Opens(acts[j], i)
  {
    if acts == [] then -1
    else if Opens(acts[|acts| - 1], i) then |acts| - 1
    else LastOpen(acts[..|acts| - 1], i)
  }

  /** What was streamed of an item since it was last opened: its name, and the fragments for it one after
      the other. */
  function Spelled(acts: seq<Act>, i: int): Acc {
    var k := LastOpen(acts, i);
    if k < 0 then Acc("", "") else Acc(acts[k].name, Join(Fragments(acts[k + 1..], i)))
  }

  function CallOf(acts: seq<Act>, i: int): ToolCall {
    ToolCall(Spelled(acts, i).name, CanonArgs(Spelled(acts, i).args))
  }

  function SpelledTurn(acts: seq<Act>): Turn {
    Normalize(Turn("assistant", Join(MapSeq(TextOf, acts)), MapSeq(i => CallOf(acts, i), Opened(acts)),
                   LastSet(MapSeq(StatusOf, acts))))
  }

  // ---------------------------------------------------------------- the table holds what was streamed

  lemma {:induction false} OpenedAppend(acts: seq<Act>, more: seq<Act>)
    ensures Opened(acts + more) == Opened(acts) + Opened(more)
  {
    if acts == [] {
      assert acts + more == more;
    } else {
      assert (acts + more)[1..] == acts[1..] + more;
      OpenedAppend(acts[1..], more);
      Assoc(if acts[0].Open? then [acts[0].index] else [], Opened(acts[1..]), Opened(more));
    }
  }

  lemma OpenedSnoc(acts: seq<Act>, a: Act)
    ensures Opened(acts + [a]) == Opened(acts) + if a.Open? then [a.index] else []
  {
    OpenedAppend(acts, [a]);
    assert [a][1..] == [];
  }

  lemma HeardSnoc(acts: seq<Act>, a: Act, i: int)
    ensures Join(Fragments(acts + [a], i)) == Join(Fragments(acts, i)) + ArgsFor(a, i)
  {
    MapSeqSnoc(b => ArgsFor(b, i), acts, a);
    JoinSnoc(Fragments(acts, i), ArgsFor(a, i));
  }

  lemma LastOpenSnoc(acts: seq<Act>, a: Act, i: int)
    ensures LastOpen(acts + [a], i) == if Opens(a, i) then |acts| else LastOpen(acts, i)
  {
    assert (acts + [a])[..|acts|] == acts;
  }

  lemma SpelledSnoc(acts: seq<Act>, a: Act, i: int)
    requires LastOpen(acts + [a], i) >= 0
    ensures Spelled(acts + [a], i)
         == if Opens(a, i) then Acc(a.name, "") else Acc(Spelled(acts, i).name, Spelled(acts, i).args + ArgsFor(a, i))
  {
    LastOpenSnoc(acts, a, i);
    if Opens(a, i) {
      AfterSnoc(acts, a, |acts|);
      assert Fragments([], i) == [];
    } else {
      HeardAfter(acts, a, i, LastOpen(acts, i));
    }
  }

  lemma HeardAfter(acts: seq<Act>, a: Act, i: int, k: nat)
    requires k < |acts|
    ensures (acts + [a])[k] == acts[k]
    ensures Join(Fragments((acts + [a])[k + 1..], i)) == Join(Fragments(acts[k + 1..], i)) + ArgsFor(a, i)
  {
    AfterSnoc(acts, a, k);
    HeardSnoc(acts[k + 1..], a, i);
  }

  lemma AfterSnoc(acts: seq<Act>, a: Act, k: nat)
    requires k <= |acts|
    ensures (acts + [a])[k] == if k < |acts| then acts[k] else a
    ensures (acts + [a])[k + 1..] == if k < |acts| then acts[k + 1..] + [a] else []
  {
  }

  ghost predicate Holds(t: Table, acts: seq<Act>) {
    && t.order == Opened(acts)
    && (forall i :: i in t.tools <==> LastOpen(acts, i) >= 0)
    && (forall i | i in t.tools :: t.tools[i] == Spelled(acts, i))
  }

  ghost predicate Gathered(st: State, acts: seq<Act>) {
    && st.text == Join(MapSeq(TextOf, acts))
    && Holds(st.table, acts)
    && st.finish == LastSet(MapSeq(StatusOf, acts))
  }

  lemma TableAfter(st: State, acts: seq<Act>, a: Act)
    requires Holds(st.table, acts)
    ensures Holds(Apply(st, a).table, acts + [a])
  {
    var u := Apply(st, a).table;
    OpenedSnoc(acts, a);
    NothingAdded(Opened(acts));
    forall i ensures i in u.tools <==> LastOpen(acts + [a], i) >= 0 { KnownAfter(st, acts, a, i); }
    forall i | i in u.tools ensures u.tools[i] == Spelled(acts + [a], i) { EntryAfter(st, acts, a, i); }
  }

  lemma KnownAfter(st: State, acts: seq<Act>, a: Act, i: int)
    requires i in st.table.tools <==> LastOpen(acts, i) >= 0
    ensures i in Apply(st, a).table.tools <==> LastOpen(acts + [a], i) >= 0
  {
    LastOpenSnoc(acts, a, i);
  }

  lemma EntryAfter(st: State, acts: seq<Act>, a: Act, i: int)
    requires i in Apply(st, a).table.tools && LastOpen(acts + [a], i) >= 0
    requires i in st.table.tools ==> st.table.tools[i] == Spelled(acts, i)
    ensures Apply(st, a).table.tools[i] == Spelled(acts + [a], i)
  {
    SpelledSnoc(acts, a, i);
    NothingAdded(Spelled(acts, i).args);
  }

  lemma ActGathered(st: State, acts: seq<Act>, a: Act)
    requires Gathered(st, acts)
    ensures Gathered(Apply(st, a), acts + [a])
  {
    TableAfter(st, acts, a);
    MapSeqSnoc(TextOf, acts, a);
    MapSeqSnoc(StatusOf, acts, a);
    JoinSnoc(MapSeq(TextOf, acts), TextOf(a));
    LastSetSnoc(MapSeq(StatusOf, acts), StatusOf(a));
    NothingAdded(st.text);
  }

  lemma {:induction false} FoldGathers(st: State, acts: seq<Act>, more: seq<Act>)
    requires Gathered(st, acts)
    ensures Gathered(Fold(Apply, st, more), acts + more)
    decreases |more|
  {
    if more == [] {
      assert acts + more == acts;
    } else {
      OneMore(acts, more);
      ActGathered(st, acts, more[0]);
      FoldGathers(Apply(st, more[0]), acts + [more[0]], more[1..]);
    }
  }

  lemma {:induction false} OpenedLast(acts: seq<Act>)
    ensures forall i <- Opened(acts) :: LastOpen(acts, i) >= 0
  {
    if acts != [] {
      var n := |acts| - 1;
      assert acts == acts[..n] + [acts[n]];
      OpenedLast(acts[..n]);
      OpenedSnoc(acts[..n], acts[n]);
    }
  }

  lemma {:induction false} CallsRead(order: seq<int>, tools: map<int, Acc>, acts: seq<Act>)
    requires forall i <- order :: i in tools && tools[i] == Spelled(acts, i)
    ensures Calls(order, tools) == MapSeq(i => CallOf(acts, i), order)
  {
    if order != [] {
      assert order[0] in order;
      forall i <- order[1..] ensures i in tools && tools[i] == Spelled(acts, i) { assert i in order; }
      CallsRead(order[1..], tools, acts);
    }
  }

  /** Any stream decodes to what its events spell: the text deltas one after the other; a call for each
      item opened, with the name it was last opened under and all fragments for it since then one after
      the other, however they are interleaved; and the last status reported. */
  lemma DecodesToSpelled(raw: string)
    ensures Decode(raw) == SpelledTurn(Acts(Events(raw)))
  {
    var acts := Acts(Events(raw));
    FoldGathers(START, [], acts);
    NothingAdded(acts);
    OpenedLast(acts);
    var st := Fold(Apply, START, acts);
    CallsRead(st.table.order, st.table.tools, acts);
  }

  // ---------------------------------------------------------------- any stream, cut elsewhere or reordered

  lemma {:induction false} ActsAppend(a: seq<Event>, b: seq<Event>)
    ensures Acts(a + b) == Acts(a) + Acts(b)
  {
    if a == [] {
      assert a + b == b;
    } else {
      assert (a + b)[1..] == a[1..] + b;
      ActsAppend(a[1..], b);
      Assoc([ReadEvent(a[0])], Acts(a[1..]), Acts(b));
    }
  }

  lemma AroundMiddle(pre: seq<Event>, mid: seq<Event>, post: seq<Event>)
    ensures Fold(Apply, START, Acts(pre + mid + post))
         == Fold(Apply, Fold(Apply, Fold(Apply, START, Acts(pre)), Acts(mid)), Acts(post))
  {
    ActsAppend(pre + mid, post);
    ActsAppend(pre, mid);
    FoldAppend(Apply, START, Acts(pre) + Acts(mid), Acts(post));
    FoldAppend(Apply, START, Acts(pre), Acts(mid));
  }

  lemma ActsOfTwo(a: Event, b: Event, st: State)
    ensures Fold(Apply, st, Acts([a, b])) == Apply(Apply(st, ReadEvent(a)), ReadEvent(b))
    ensures Fold(Apply, st, Acts([a])) == Apply(st, ReadEvent(a))
  {
    assert [a, b] == [a] + [b];
    ActsAppend([a], [b]);
    ActOfOne(a, st);
    ActOfOne(b, Apply(st, ReadEvent(a)));
    FoldAppend(Apply, st, Acts([a]), Acts([b]));
  }

  lemma ActOfOne(a: Event, st: State)
    ensures Fold(Apply, st, Acts([a])) == Apply(st, ReadEvent(a))
  {
    assert [a][1..] == [];
    assert Acts([a]) == [ReadEvent(a)] && [ReadEvent(a)][1..] == [];
  }

  /** Cutting one delta of any stream into two, of the text or of an item's arguments, leaves the decoded
      turn as it was. */
  lemma SplittingDelta(raw: string, other: string, pre: seq<Event>, post: seq<Event>,
                       whole: Event, first: Event, second: Event, i: int, s: string, t: string)
    requires Events(raw) == pre + [first, second] + post && Events(other) == pre + [whole] + post
    requires
      || (ReadEvent(whole) == AddText(s + t) && ReadEvent(first) == AddText(s) && ReadEvent(second) == AddText(t))
      || (ReadEvent(whole) == AddArgs(i, s + t) && ReadEvent(first) == AddArgs(i, s) && ReadEvent(second) == AddArgs(i, t))
    ensures Decode(raw) == Decode(other)
  {
    AroundMiddle(pre, [first, second], post);
    AroundMiddle(pre, [whole], post);
    var st := Fold(Apply, START, Acts(pre));
    ActsOfTwo(first, second, st);
    ActsOfTwo(whole, whole, st);
    TextTwice(st, s, t);
    ArgsTwice(st, i, s, t);
  }

  lemma TextTwice(st: State, s: string, t: string)
    ensures Apply(Apply(st, AddText(s)), AddText(t)) == Apply(st, AddText(s + t))
  {
    Assoc(st.text, s, t);
  }

  lemma ArgsTwice(st: State, i: int, s: string, t: string)
    ensures Apply(Apply(st, AddArgs(i, s)), AddArgs(i, t)) == Apply(st, AddArgs(i, s + t))
  {
    if i in st.table.tools {
      var a := st.table.tools[i];
      Assoc(a.args, s, t);
      assert st.table.tools[i := a.(args := a.args + s)][i := a.(args := a.args + s + t)]
          == st.table.tools[i := a.(args := a.args + (s + t))];
    }
  }

  /** Swapping neighbouring deltas of different items leaves the decoded turn as it was. */
  lemma SwappingDeltas(raw: string, other: string, pre: seq<Event>, post: seq<Event>, a: Event, b: Event)
    requires Events(raw) == pre + [a, b] + post && Events(other) == pre + [b, a] + post
    requires ReadEvent(a).AddArgs?
    requires ReadEvent(b).AddText? || (ReadEvent(b).AddArgs? && ReadEvent(b).index != ReadEvent(a).index)
    ensures Decode(raw) == Decode(other)
  {
    AroundMiddle(pre, [a, b], post);
    AroundMiddle(pre, [b, a], post);
    var st := Fold(Apply, START, Acts(pre));
    ActsOfTwo(a, b, st);
    ActsOfTwo(b, a, st);
    AppliedEitherWay(st, ReadEvent(a), ReadEvent(b));
  }

  lemma AppliedEitherWay(st: State, a: Act, b: Act)
    requires a.AddArgs? && (b.AddText? || (b.AddArgs? && b.index != a.index))
    ensures Apply(Apply(st, a), b) == Apply(Apply(st, b), a)
  {
    if b.AddArgs? && a.index in st.table.tools && b.index in st.table.tools {
      var x, y := st.table.tools[a.index], st.table.tools[b.index];
      assert st.table.tools[a.index := x.(args := x.args + a.args)][b.index := y.(args := y.args + b.args)]
          == st.table.tools[b.index := y.(args := y.args + b.args)][a.index := x.(args := x.args + a.args)];
    }
  }
}
