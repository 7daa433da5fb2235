/** What fragments add up to. */
module OpenAIFragments {
  import opened Lists
  import opened Options
  import opened Texts
  import opened Json
  import opened Canon
  import opened Records
  import opened Sse
  import opened Transcript
  import opened Envelopes
  import opened ToolTables
  import opened OpenAI
  import opened OpenAIRoundTrip

  // ---------------------------------------------------------------- a stream, read without a table

  function PartsOf(cs: seq<Option<Choice>>): seq<ToolPart> {
    if cs == [] then [] else (if cs[0].Some? then cs[0].value.tools else []) + PartsOf(cs[1..])
  }

  function ContentOf(c: Option<Choice>): string { if c.Some? then c.value.content else "" }

  function FinishOf(c: Option<Choice>): string { if c.Some? then c.value.finish else "" }

  function NameOf(p: ToolPart): string { p.name }

  function ArgsOf(p: ToolPart): string { p.args }

  /** The parts of one call. */
  function Own(ps: seq<ToolPart>, i: int): seq<ToolPart> {
    if ps == [] then [] else (if ps[0].index == i then [ps[0]] else []) + Own(ps[1..], i)
  }

  /** The calls mentioned, each once, in the order they come up. */
  function Indices(ps: seq<ToolPart>): seq<int> {
    if ps == [] then []
    else
      var n := |ps| - 1;
      Indices(ps[..n]) + if ps[n].index in Indices(ps[..n]) then [] else [ps[n].index]
  }

  /** All that was streamed of one call: the last name given, and the argument fragments one after the other. */
  function Spelled(ps: seq<ToolPart>, i: int): Acc {
    Acc(LastSet(MapSeq(NameOf, Own(ps, i))), Join(MapSeq(ArgsOf, Own(ps, i))))
  }

  function CallOf(ps: seq<ToolPart>, i: int): ToolCall {
    ToolCall(Spelled(ps, i).name, CanonArgs(Spelled(ps, i).args))
  }

  lemma {:induction false} IndicesOnce(ps: seq<ToolPart>)
    ensures forall i :: i in Indices(ps) <==> exists k | 0 <= k < |ps| :: ps[k].index == i
    ensures forall j, k | 0 <= j < k < |Indices(ps)| :: Indices(ps)[j] != Indices(ps)[k]
  {
    if ps != [] {
      var n := |ps| - 1;
      IndicesOnce(ps[..n]);
      forall i ensures i in Indices(ps) <==> exists k | 0 <= k < |ps| :: ps[k].index == i {
        if i in Indices(ps) {
          if i in Indices(ps[..n]) {
            var k :| 0 <= k < n && ps[..n][k].index == i;
            assert ps[k].index == i;
          } else {
            assert ps[n].index == i;
          }
        }
        if k :| 0 <= k < |ps| && ps[k].index == i {
          if k < n { assert ps[..n][k].index == i; }
        }
      }
    }
  }

  // ---------------------------------------------------------------- the table holds what was streamed

  lemma {:induction false} OwnAppend(a: seq<ToolPart>, b: seq<ToolPart>, i: int)
    ensures Own(a + b, i) == Own(a, i) + Own(b, i)
  {
    if a == [] {
      assert a + b == b;
    } else {
      assert (a + b)[1..] == a[1..] + b;
      OwnAppend(a[1..], b, i);
      Assoc(if a[0].index == i then [a[0]] else [], Own(a[1..], i), Own(b, i));
    }
  }

  lemma OwnSnoc(ps: seq<ToolPart>, p: ToolPart, i: int)
    ensures Own(ps + [p], i) == Own(ps, i) + if p.index == i then [p] else []
  {
    OwnAppend(ps, [p], i);
    assert [p][1..] == [];
  }

  lemma SpelledSnoc(ps: seq<ToolPart>, p: ToolPart, i: int)
    ensures Spelled(ps + [p], i)
         == if p.index != i then Spelled(ps, i)
            else Acc(if p.name != "" then p.name else Spelled(ps, i).name, Spelled(ps, i).args + p.args)
  {
    OwnSnoc(ps, p, i);
    var own := Own(ps, i);
    if p.index == i {
      MapSeqSnoc(NameOf, own, p);
      MapSeqSnoc(ArgsOf, own, p);
      LastSetSnoc(MapSeq(NameOf, own), p.name);
      JoinSnoc(MapSeq(ArgsOf, own), p.args);
    } else {
      assert own + [] == own;
    }
  }

  ghost predicate Holds(t: Table, ps: seq<ToolPart>) {
    && t.order == Indices(ps)
    && (forall i :: i in t.tools <==> i in t.order)
    && (forall i | i in t.tools :: t.tools[i] == Spelled(ps, i))
  }

  lemma {:induction false} UnseenSpelled(ps: seq<ToolPart>, i: int)
    requires i !in Indices(ps)
    ensures Own(ps, i) == []
  {
    if ps != [] {
      var n := |ps| - 1;
      assert ps == ps[..n] + [ps[n]];
      OwnSnoc(ps[..n], ps[n], i);
      UnseenSpelled(ps[..n], i);
    }
  }

  lemma AddedHolds(t: Table, ps: seq<ToolPart>, p: ToolPart)
    requires Holds(t, ps)
    ensures Holds(AddPart(t, p), ps + [p])
  {
    var u := AddPart(t, p);
    assert (ps + [p])[..|ps|] == ps;
    if p.index !in t.tools { UnseenSpelled(ps, p.index); }
    forall i | i in u.tools ensures u.tools[i] == Spelled(ps + [p], i) {
      SpelledSnoc(ps, p, i);
    }
  }

  lemma {:induction false} PartsHold(t: Table, ps: seq<ToolPart>, more: seq<ToolPart>)
    requires Holds(t, ps)
    ensures Holds(AddParts(t, more), ps + more)
    decreases |more|
  {
    if more == [] {
      assert ps + more == ps;
    } else {
      OneMore(ps, more);
      AddedHolds(t, ps, more[0]);
      PartsHold(AddPart(t, more[0]), ps + [more[0]], more[1..]);
    }
  }

  ghost predicate Gathered(st: State, cs: seq<Option<Choice>>) {
    && st.text == Join(MapSeq(ContentOf, cs))
    && Holds(st.table, PartsOf(cs))
    && st.finish == LastSet(MapSeq(FinishOf, cs))
  }

  lemma {:induction false} PartsOfAppend(a: seq<Option<Choice>>, b: seq<Option<Choice>>)
    ensures PartsOf(a + b) == PartsOf(a) + PartsOf(b)
  {
    if a == [] {
      assert a + b == b;
    } else {
      assert (a + b)[1..] == a[1..] + b;
      PartsOfAppend(a[1..], b);
      Assoc(if a[0].Some? then a[0].value.tools else [], PartsOf(a[1..]), PartsOf(b));
    }
  }

  lemma ChoiceGathered(st: State, cs: seq<Option<Choice>>, c: Option<Choice>)
    requires Gathered(st, cs)
    ensures Gathered(Apply(st, c), cs + [c])
  {
    MapSeqSnoc(ContentOf, cs, c);
    MapSeqSnoc(FinishOf, cs, c);
    JoinSnoc(MapSeq(ContentOf, cs), ContentOf(c));
    LastSetSnoc(MapSeq(FinishOf, cs), FinishOf(c));
    var more := if c.Some? then c.value.tools else [];
    PartsOfAppend(cs, [c]);
    assert PartsOf([c]) == more by { assert [c][1..] == [] && more + [] == more; }
    PartsHold(st.table, PartsOf(cs), more);
    if c.None? {
      assert PartsOf(cs) + [] == PartsOf(cs) && st.text + "" == st.text;
    }
  }

  lemma {:induction false} FoldGathers(st: State, cs: seq<Option<Choice>>, more: seq<Option<Choice>>)
    requires Gathered(st, cs)
    ensures Gathered(Fold(Apply, st, more), cs + more)
    decreases |more|
  {
    if more == [] {
      assert cs + more == cs;
    } else {
      OneMore(cs, more);
      ChoiceGathered(st, cs, more[0]);
      FoldGathers(Apply(st, more[0]), cs + [more[0]], more[1..]);
    }
  }

  lemma {:induction false} CallsRead(order: seq<int>, tools: map<int, Acc>, ps: seq<ToolPart>)
    requires forall i <- order :: i in tools && tools[i] == Spelled(ps, i)
    ensures Calls(order, tools) == MapSeq(i => CallOf(ps, i), order)
  {
    if order != [] {
      assert order[0] in order;
      forall i <- order[1..] ensures i in tools && tools[i] == Spelled(ps, i) { assert i in order; }
      CallsRead(order[1..], tools, ps);
    }
  }

  /** The turn some choices spell. */
  function SpelledTurn(cs: seq<Option<Choice>>): Turn {
    var ps := PartsOf(cs);
    Normalize(Turn("assistant", Join(MapSeq(ContentOf, cs)), MapSeq(i => CallOf(ps, i), Indices(ps)),
                   LastSet(MapSeq(FinishOf, cs))))
  }

  /** Any stream decodes to what its chunks spell: the contents one after the other; a call for each
      index mentioned, with its last name and all its argument fragments one after the other, however they
      are interleaved; and the last finish reason. */
  lemma DecodesToSpelled(raw: string)
    ensures Decode(raw) == SpelledTurn(Choices(Events(raw)))
  {
    FoldDecodes(Choices(Events(raw)));
  }

  lemma FoldDecodes(cs: seq<Option<Choice>>)
    ensures Assemble(Fold(Apply, START, cs)) == SpelledTurn(cs)
  {
    FoldGathers(START, [], cs);
    assert [] + cs == cs;
    var st := Fold(Apply, START, cs);
    CallsRead(st.table.order, st.table.tools, PartsOf(cs));
  }

  /** Of the choices of a chunk only the first counts, but all of them must decode. */
  lemma FirstChoiceCounts(f: List<Field>, v: Value, more: List<Value>)
    requires Lookup(f, "choices") == Some(Arr(Cons(v, more)))
    ensures ReadChunk(f) == if Each(more, ReadChoice).Some? then ReadChoice(v) else None
  {
    var first, rest := ReadChoice(v), Each(more, ReadChoice);
    if first.Some? && rest.Some? { assert ([first.value] + rest.value)[0] == first.value; }
  }

  // ---------------------------------------------------------------- only what each call was told matters

  lemma {:induction false} MentionedIff(ps: seq<ToolPart>, i: int)
    ensures i in Indices(ps) <==> Own(ps, i) != []
  {
    if ps != [] {
      var n := |ps| - 1;
      assert ps == ps[..n] + [ps[n]];
      OwnSnoc(ps[..n], ps[n], i);
      MentionedIff(ps[..n], i);
    }
  }

  lemma {:induction false} OnceCounted<T>(s: seq<T>, x: T)
    requires forall j, k | 0 <= j < k < |s| :: s[j] != s[k]
    ensures multiset(s)[x] == if x in s then 1 else 0
  {
    if s != [] {
      OnceCounted(s[1..], x);
      assert s == [s[0]] + s[1..];
      assert multiset(s) == multiset{s[0]} + multiset(s[1..]);
    }
  }

  /** Two streams tell the same of every call. */
  ghost predicate TellSame(ps: seq<ToolPart>, qs: seq<ToolPart>) {
    forall i :: (Own(ps, i) == [] <==> Own(qs, i) == []) && Spelled(ps, i) == Spelled(qs, i)
  }

  lemma SameContents(a: seq<ToolPart>, b: seq<ToolPart>)
    requires forall i :: Own(a, i) == [] <==> Own(b, i) == []
    ensures multiset(Indices(a)) == multiset(Indices(b))
  {
    IndicesOnce(a);
    IndicesOnce(b);
    forall i ensures multiset(Indices(a))[i] == multiset(Indices(b))[i] {
      MentionedIff(a, i);
      MentionedIff(b, i);
      assert Own(a, i) == [] <==> Own(b, i) == [];
      OnceCounted(Indices(a), i);
      OnceCounted(Indices(b), i);
    }
  }

  lemma ToldSameCalls(ps: seq<ToolPart>, qs: seq<ToolPart>)
    requires TellSame(ps, qs)
    ensures SortCalls(MapSeq(i => CallOf(ps, i), Indices(ps))) == SortCalls(MapSeq(i => CallOf(qs, i), Indices(qs)))
  {
    forall i ensures Own(ps, i) == [] <==> Own(qs, i) == [] {
      assert Spelled(ps, i) == Spelled(qs, i);
    }
    SameContents(ps, qs);
    MapSeqContents(i => CallOf(ps, i), Indices(ps), Indices(qs));
    forall i <- Indices(qs) ensures CallOf(ps, i) == CallOf(qs, i) { assert Spelled(ps, i) == Spelled(qs, i); }
    MapSeqSame(i => CallOf(ps, i), i => CallOf(qs, i), Indices(qs));
    SortCallsSame(MapSeq(i => CallOf(ps, i), Indices(ps)), MapSeq(i => CallOf(qs, i), Indices(qs)));
  }

  /** How the parts of different calls are interleaved, in which chunks they come and how they are cut
      makes no difference: two streams with the same text and finish reason that spell the same of every
      call decode to the same turn. */
  lemma InterleavingForgotten(raw: string, other: string)
    requires var cs, ds := Choices(Events(raw)), Choices(Events(other));
      && Join(MapSeq(ContentOf, cs)) == Join(MapSeq(ContentOf, ds))
      && LastSet(MapSeq(FinishOf, cs)) == LastSet(MapSeq(FinishOf, ds))
      && TellSame(PartsOf(cs), PartsOf(ds))
    ensures Decode(raw) == Decode(other)
  {
    DecodesToSpelled(raw);
    DecodesToSpelled(other);
    ToldSameCalls(PartsOf(Choices(Events(raw))), PartsOf(Choices(Events(other))));
  }

  // ---------------------------------------------------------------- one call among others

  /** One list dealt into two, each in order. */
  ghost predicate Weave<T>(own: seq<T>, others: seq<T>, all: seq<T>)
    decreases |all|
  {
    if all == [] then own == [] && others == []
    else
      || (own != [] && own[0] == all[0] && Weave(own[1..], others, all[1..]))
      || (others != [] && others[0] == all[0] && Weave(own, others[1..], all[1..]))
  }

  /** What a woven stream tells of text and finish when one side tells nothing of them. */
  lemma {:induction false} WovenTexts(own: seq<Event>, others: seq<Event>, all: seq<Event>)
    requires Weave(own, others, all)
    requires forall c <- Choices(own) :: ContentOf(c) == "" && FinishOf(c) == ""
    ensures Join(MapSeq(ContentOf, Choices(all))) == Join(MapSeq(ContentOf, Choices(others)))
    ensures LastSet(MapSeq(FinishOf, Choices(all))) == LastSet(MapSeq(FinishOf, Choices(others)))
    decreases |all|
  {
    if all != [] {
      LastSetCons(FinishOf(ReadEvent(all[0])), MapSeq(FinishOf, Choices(all[1..])));
      if own != [] && own[0] == all[0] && Weave(own[1..], others, all[1..]) {
        assert Choices(own)[0] == ReadEvent(own[0]) && Choices(own)[0] in Choices(own);
        forall c <- Choices(own[1..]) ensures ContentOf(c) == "" && FinishOf(c) == "" { assert c in Choices(own); }
        WovenTexts(own[1..], others, all[1..]);
      } else {
        LastSetCons(FinishOf(ReadEvent(all[0])), MapSeq(FinishOf, Choices(others[1..])));
        WovenTexts(own, others[1..], all[1..]);
      }
    }
  }

  function PartsIn(ev: Event): seq<ToolPart> {
    var c := ReadEvent(ev);
    if c.Some? then c.value.tools else []
  }

  function EventParts(events: seq<Event>): seq<ToolPart> {
    PartsOf(Choices(events))
  }

  lemma EventPartsCons(events: seq<Event>)
    requires events != []
    ensures EventParts(events) == PartsIn(events[0]) + EventParts(events[1..])
  {
    assert Choices(events)[1..] == Choices(events[1..]);
  }

  lemma {:induction false} WovenOwn(own: seq<Event>, others: seq<Event>, all: seq<Event>, i: int)
    requires Weave(own, others, all)
    requires Own(EventParts(own), i) == [] || Own(EventParts(others), i) == []
    ensures Own(EventParts(all), i) == Own(EventParts(own), i) + Own(EventParts(others), i)
    decreases |all|
  {
    if all != [] {
      EventPartsCons(all);
      OwnAppend(PartsIn(all[0]), EventParts(all[1..]), i);
      if own != [] && own[0] == all[0] && Weave(own[1..], others, all[1..]) {
        EventPartsCons(own);
        OwnAppend(PartsIn(own[0]), EventParts(own[1..]), i);
        WovenOwn(own[1..], others, all[1..], i);
        Assoc(Own(PartsIn(own[0]), i), Own(EventParts(own[1..]), i), Own(EventParts(others), i));
      } else {
        EventPartsCons(others);
        OwnAppend(PartsIn(others[0]), EventParts(others[1..]), i);
        WovenOwn(own, others[1..], all[1..], i);
      }
    }
  }

  /** A call as it is streamed: its name, then its arguments in fragments. */
  function Streamed(i: int, name: string, fragments: seq<string>): seq<Option<Choice>> {
    [Part(ToolPart(i, name, ""))] + MapSeq(a => Part(ToolPart(i, "", a)), fragments)
  }

  lemma {:induction false} FragmentParts(i: int, fragments: seq<string>)
    ensures var cs := MapSeq(a => Part(ToolPart(i, "", a)), fragments);
      && PartsOf(cs) == MapSeq(a => ToolPart(i, "", a), fragments)
      && (forall j :: Own(PartsOf(cs), j) == if j == i then PartsOf(cs) else [])
      && Join(MapSeq(ArgsOf, PartsOf(cs))) == Join(fragments) && LastSet(MapSeq(NameOf, PartsOf(cs))) == ""
      && forall c <- cs :: ContentOf(c) == "" && FinishOf(c) == ""
  {
    if fragments != [] {
      FragmentParts(i, fragments[1..]);
      var cs := MapSeq(a => Part(ToolPart(i, "", a)), fragments[1..]);
      LastSetCons("", MapSeq(NameOf, PartsOf(cs)));
    }
  }

  lemma StreamedParts(i: int, name: string, fragments: seq<string>)
    ensures var cs := Streamed(i, name, fragments);
      && (forall j | j != i :: Own(PartsOf(cs), j) == []) && Own(PartsOf(cs), i) == PartsOf(cs) != []
      && Spelled(PartsOf(cs), i) == Acc(name, Join(fragments))
      && forall c <- cs :: ContentOf(c) == "" && FinishOf(c) == ""
  {
    var more := MapSeq(a => Part(ToolPart(i, "", a)), fragments);
    var ps := PartsOf(more);
    FragmentParts(i, fragments);
    assert Streamed(i, name, fragments)[1..] == more;
    assert PartsOf(Streamed(i, name, fragments)) == [ToolPart(i, name, "")] + ps;
    assert ([ToolPart(i, name, "")] + ps)[1..] == ps;
    LastSetCons(name, MapSeq(NameOf, ps));
  }

  lemma AddedContents(a: seq<ToolPart>, b: seq<ToolPart>, i: int)
    requires Own(b, i) == [] && Own(a, i) != []
    requires forall j | j != i :: Own(a, j) == Own(b, j)
    ensures multiset(Indices(a)) == multiset(Indices(b) + [i])
  {
    IndicesOnce(a);
    IndicesOnce(b);
    MentionedIff(b, i);
    forall j ensures multiset(Indices(a))[j] == multiset(Indices(b) + [i])[j] {
      MentionedIff(a, j);
      MentionedIff(b, j);
      if j != i { assert Own(a, j) == Own(b, j); }
      OnceCounted(Indices(a), j);
      OnceCounted(Indices(b), j);
    }
  }

  lemma AddedCall(a: seq<ToolPart>, b: seq<ToolPart>, i: int, c: ToolCall)
    requires Own(b, i) == [] && Own(a, i) != [] && CallOf(a, i) == c
    requires forall j | j != i :: Own(a, j) == Own(b, j)
    ensures var kept := MapSeq(j => CallOf(b, j), Indices(b));
      SortCalls(MapSeq(j => CallOf(a, j), Indices(a))) == SortCalls(SortCalls(kept) + [c])
  {
    var f, g := j => CallOf(a, j), j => CallOf(b, j);
    AddedContents(a, b, i);
    MapSeqContents(f, Indices(a), Indices(b) + [i]);
    MapSeqSnoc(f, Indices(b), i);
    MentionedIff(b, i);
    forall j <- Indices(b) ensures f(j) == g(j) { assert j != i; }
    MapSeqSame(f, g, Indices(b));
    var kept := MapSeq(g, Indices(b));
    SortCallsSorts(kept);
    assert multiset(SortCalls(kept) + [c]) == multiset(kept) + multiset{c} == multiset(kept + [c]);
    SortCallsSame(MapSeq(f, Indices(a)), SortCalls(kept) + [c]);
  }

  lemma WovenCall(own: seq<Event>, others: seq<Event>, all: seq<Event>, i: int)
    requires Weave(own, others, all) && Own(EventParts(others), i) == []
    requires forall j | j != i :: Own(EventParts(own), j) == []
    ensures Own(EventParts(all), i) == Own(EventParts(own), i)
    ensures forall j | j != i :: Own(EventParts(all), j) == Own(EventParts(others), j)
  {
    WovenOwn(own, others, all, i);
    NothingAdded(Own(EventParts(own), i));
    forall j | j != i ensures Own(EventParts(all), j) == Own(EventParts(others), j) {
      WovenOwn(own, others, all, j);
      NothingAdded(Own(EventParts(others), j));
    }
  }

  lemma SpelledWithCall(cs: seq<Option<Choice>>, ds: seq<Option<Choice>>, i: int, c: ToolCall)
    requires Join(MapSeq(ContentOf, cs)) == Join(MapSeq(ContentOf, ds))
    requires LastSet(MapSeq(FinishOf, cs)) == LastSet(MapSeq(FinishOf, ds))
    requires Own(PartsOf(ds), i) == [] && Own(PartsOf(cs), i) != [] && CallOf(PartsOf(cs), i) == c
    requires forall j | j != i :: Own(PartsOf(cs), j) == Own(PartsOf(ds), j)
    ensures var u := SpelledTurn(ds); SpelledTurn(cs) == Normalize(u.(calls := u.calls + [c]))
  {
    AddedCall(PartsOf(cs), PartsOf(ds), i, c);
  }

  /** A call streamed in any fragments, woven in any way into a stream that does not mention its index,
      adds exactly one call to what the rest decodes to, and its arguments are the fragments one after the
      other. */
  lemma FragmentsJoin(raw: string, rest: string, own: seq<Event>, i: int, name: string, fragments: seq<string>)
    requires Weave(own, Events(rest), Events(raw)) && Choices(own) == Streamed(i, name, fragments)
    requires Own(EventParts(Events(rest)), i) == []
    ensures var u := Decode(rest);
      Decode(raw) == Normalize(u.(calls := u.calls + [ToolCall(name, CanonArgs(Join(fragments)))]))
  {
    StreamedParts(i, name, fragments);
    WovenTexts(own, Events(rest), Events(raw));
    WovenCall(own, Events(rest), Events(raw), i);
    DecodesToSpelled(raw);
    DecodesToSpelled(rest);
    SpelledWithCall(Choices(Events(raw)), Choices(Events(rest)), i, ToolCall(name, CanonArgs(Join(fragments))));
  }

  // ---------------------------------------------------------------- the same on frames

  function CallFrames(env: Envelope, i: int, id: string, name: string, fragments: seq<string>): seq<Frame> {
    [OpenFrame(env, i, id, name)] + MapSeq(a => ArgsFrame(env, i, a), fragments)
  }

  lemma FragmentsCarry(env: Envelope, i: int, fragments: seq<string>)
    ensures AllCarry(Carries, MapSeq(a => ArgsFrame(env, i, a), fragments), MapSeq(a => Part(ToolPart(i, "", a)), fragments))
  {
    forall a ensures Carries(ArgsFrame(env, i, a), Part(ToolPart(i, "", a))) { ArgsFrameCarries(env, i, a); }
    MapsCarry(Carries, a => ArgsFrame(env, i, a), a => Part(ToolPart(i, "", a)), fragments);
  }

  lemma MapsCarry<A(!new), D>(carries: (Frame, D) -> bool, f: A -> Frame, g: A -> D, s: seq<A>)
    requires forall a :: carries(f(a), g(a))
    ensures AllCarry(carries, MapSeq(f, s), MapSeq(g, s))
  {
    forall k | 0 <= k < |s| ensures carries(MapSeq(f, s)[k], MapSeq(g, s)[k]) {
      MapSeqAt(f, s, k);
      MapSeqAt(g, s, k);
    }
  }

  lemma CallFramesCarry(env: Envelope, i: int, id: string, name: string, fragments: seq<string>)
    ensures AllCarry(Carries, CallFrames(env, i, id, name, fragments), Streamed(i, name, fragments))
  {
    OpenFrameCarries(env, i, id, name);
    FragmentsCarry(env, i, fragments);
    CarryOne(Carries, OpenFrame(env, i, id, name), Part(ToolPart(i, name, "")));
    CarryAppend(Carries, [OpenFrame(env, i, id, name)], [Part(ToolPart(i, name, ""))],
      MapSeq(a => ArgsFrame(env, i, a), fragments), MapSeq(a => Part(ToolPart(i, "", a)), fragments));
  }

  lemma {:induction false} WovenFramed(own: seq<Frame>, others: seq<Frame>, all: seq<Frame>)
    requires Weave(own, others, all) && WellFramed(own) && WellFramed(others)
    ensures WellFramed(all)
    decreases |all|
  {
    if all != [] {
      if own != [] && own[0] == all[0] && Weave(own[1..], others, all[1..]) {
        assert own[0] in own && forall f <- own[1..] :: f in own;
        WovenFramed(own[1..], others, all[1..]);
      } else {
        assert others[0] in others && forall f <- others[1..] :: f in others;
        WovenFramed(own, others[1..], all[1..]);
      }
      assert all == [all[0]] + all[1..];
    }
  }

  lemma {:induction false} EmptyWeave<T>(more: seq<T>)
    ensures Weave([], more, more)
  {
    if more != [] { EmptyWeave(more[1..]); }
  }

  lemma {:induction false} WovenMaps<A, B>(f: A -> B, own: seq<A>, others: seq<A>, all: seq<A>, more: seq<B>)
    requires Weave(own, others, all)
    ensures Weave(MapSeq(f, own), MapSeq(f, others) + more, MapSeq(f, all) + more)
    decreases |all|
  {
    if all == [] {
      assert [] + more == more;
      EmptyWeave(more);
    } else {
      MappedFirst(f, all, more);
      if own != [] && own[0] == all[0] && Weave(own[1..], others, all[1..]) {
        WovenMaps(f, own[1..], others, all[1..], more);
      } else {
        MappedFirst(f, others, more);
        WovenMaps(f, own, others[1..], all[1..], more);
      }
    }
  }

  lemma MappedFirst<A, B>(f: A -> B, s: seq<A>, more: seq<B>)
    requires s != []
    ensures var r := MapSeq(f, s) + more; r != [] && r[0] == f(s[0]) && r[1..] == MapSeq(f, s[1..]) + more
  {
    var rest := MapSeq(f, s[1..]);
    Assoc([f(s[0])], rest, more);
    assert ([f(s[0])] + (rest + more))[1..] == rest + more;
  }

  function EventOf(f: Frame): Event {
    Event(f.event, Print(f.payload) + "\n")
  }

  lemma {:induction false} FrameEventsMap(fs: seq<Frame>)
    ensures FrameEvents(fs) == MapSeq(EventOf, fs)
  {
    if fs != [] {
      FrameEventsMap(fs[1..]);
      assert EventOf(fs[0]) == Event(fs[0].event, Print(fs[0].payload) + "\n");
    }
  }

  lemma WovenEvents(own: seq<Frame>, others: seq<Frame>, all: seq<Frame>, more: seq<Event>)
    requires Weave(own, others, all)
    ensures Weave(FrameEvents(own), FrameEvents(others) + more, FrameEvents(all) + more)
  {
    FrameEventsMap(own);
    FrameEventsMap(others);
    FrameEventsMap(all);
    WovenMaps(EventOf, own, others, all, more);
  }

  /** The frames of a call, with its arguments in any fragments, dealt in any way among any other frames
      that do not mention its index, and followed by anything that does not: the call is decoded with its
      fragments joined, and the rest as if it were alone. */
  lemma StreamedCallDecodes(env: Envelope, i: int, id: string, name: string, fragments: seq<string>,
                            others: seq<Frame>, all: seq<Frame>, rest: string)
    requires Weave(CallFrames(env, i, id, name, fragments), others, all) && WellFramed(others)
    requires Own(EventParts(Events(Render(others) + rest)), i) == []
    ensures var u := Decode(Render(others) + rest);
      Decode(Render(all) + rest) == Normalize(u.(calls := u.calls + [ToolCall(name, CanonArgs(Join(fragments)))]))
  {
    var own := CallFrames(env, i, id, name, fragments);
    CallFramesCarry(env, i, id, name, fragments);
    CarriedFramed(own, Streamed(i, name, fragments));
    CarriedChoices(own, Streamed(i, name, fragments), []);
    NothingAdded(FrameEvents(own));
    NothingAdded(Streamed(i, name, fragments));
    WovenFramed(own, others, all);
    RenderScansBefore(all, rest);
    RenderScansBefore(others, rest);
    WovenEvents(own, others, all, Events(rest));
    FragmentsJoin(Render(all) + rest, Render(others) + rest, FrameEvents(own), i, name, fragments);
  }

  // ---------------------------------------------------------------- any stream, cut elsewhere or reordered

  lemma ChoicesAround(pre: seq<Event>, mid: seq<Event>, post: seq<Event>)
    ensures Choices(pre + mid + post) == Choices(pre) + Choices(mid) + Choices(post)
  {
    ChoicesAppend(pre + mid, post);
    ChoicesAppend(pre, mid);
  }

  lemma {:induction false} ChoicesAppend(a: seq<Event>, b: seq<Event>)
    ensures Choices(a + b) == Choices(a) + Choices(b)
  {
    if a == [] {
      assert a + b == b;
    } else {
      assert (a + b)[1..] == a[1..] + b;
      ChoicesAppend(a[1..], b);
      Assoc([ReadEvent(a[0])], Choices(a[1..]), Choices(b));
    }
  }

  /** What a stretch of choices adds to text, finish reason and calls. */
  lemma StretchTold(pre: seq<Option<Choice>>, mid: seq<Option<Choice>>, post: seq<Option<Choice>>)
    ensures var cs := pre + mid + post;
      && Join(MapSeq(ContentOf, cs))
         == Join(MapSeq(ContentOf, pre)) + Join(MapSeq(ContentOf, mid)) + Join(MapSeq(ContentOf, post))
      && MapSeq(FinishOf, cs) == MapSeq(FinishOf, pre) + MapSeq(FinishOf, mid) + MapSeq(FinishOf, post)
      && PartsOf(cs) == PartsOf(pre) + PartsOf(mid) + PartsOf(post)
  {
    MapSeqAppend(ContentOf, pre + mid, post);
    MapSeqAppend(ContentOf, pre, mid);
    JoinAppend(MapSeq(ContentOf, pre) + MapSeq(ContentOf, mid), MapSeq(ContentOf, post));
    JoinAppend(MapSeq(ContentOf, pre), MapSeq(ContentOf, mid));
    MapSeqAppend(FinishOf, pre + mid, post);
    MapSeqAppend(FinishOf, pre, mid);
    PartsOfAppend(pre + mid, post);
    PartsOfAppend(pre, mid);
  }

  lemma SpelledAppend(a: seq<ToolPart>, b: seq<ToolPart>, i: int)
    ensures var s, t := Spelled(a, i), Spelled(b, i);
      Spelled(a + b, i) == Acc(if t.name != "" then t.name else s.name, s.args + t.args)
  {
    OwnAppend(a, b, i);
    MapSeqAppend(NameOf, Own(a, i), Own(b, i));
    MapSeqAppend(ArgsOf, Own(a, i), Own(b, i));
    LastSetAppend(MapSeq(NameOf, Own(a, i)), MapSeq(NameOf, Own(b, i)));
    JoinAppend(MapSeq(ArgsOf, Own(a, i)), MapSeq(ArgsOf, Own(b, i)));
  }

  lemma SameMiddle(pre: seq<ToolPart>, x: seq<ToolPart>, y: seq<ToolPart>, post: seq<ToolPart>)
    requires TellSame(x, y)
    ensures TellSame(pre + x + post, pre + y + post)
  {
    forall i ensures (Own(pre + x + post, i) == [] <==> Own(pre + y + post, i) == [])
                  && Spelled(pre + x + post, i) == Spelled(pre + y + post, i)
    {
      assert Spelled(x, i) == Spelled(y, i) && (Own(x, i) == [] <==> Own(y, i) == []);
      SpelledAppend(pre + x, post, i);
      SpelledAppend(pre, x, i);
      SpelledAppend(pre + y, post, i);
      SpelledAppend(pre, y, i);
      OwnAppend(pre + x, post, i);
      OwnAppend(pre, x, i);
      OwnAppend(pre + y, post, i);
      OwnAppend(pre, y, i);
    }
  }

  /** A stretch of any stream may be replaced by one that tells the same. */
  lemma StretchReplaced(raw: string, other: string, pre: seq<Event>, x: seq<Event>, y: seq<Event>, post: seq<Event>)
    requires Events(raw) == pre + x + post && Events(other) == pre + y + post
    requires var cs, ds := Choices(x), Choices(y);
      && Join(MapSeq(ContentOf, cs)) == Join(MapSeq(ContentOf, ds))
      && LastSet(MapSeq(FinishOf, cs)) == LastSet(MapSeq(FinishOf, ds))
      && TellSame(PartsOf(cs), PartsOf(ds))
    ensures Decode(raw) == Decode(other)
  {
    ChoicesAround(pre, x, post);
    ChoicesAround(pre, y, post);
    StretchTold(Choices(pre), Choices(x), Choices(post));
    StretchTold(Choices(pre), Choices(y), Choices(post));
    StretchFinish(Choices(pre), Choices(x), Choices(post));
    StretchFinish(Choices(pre), Choices(y), Choices(post));
    SameMiddle(PartsOf(Choices(pre)), PartsOf(Choices(x)), PartsOf(Choices(y)), PartsOf(Choices(post)));
    InterleavingForgotten(raw, other);
  }

  lemma StretchFinish(pre: seq<Option<Choice>>, mid: seq<Option<Choice>>, post: seq<Option<Choice>>)
    ensures var a, b, c := LastSet(MapSeq(FinishOf, pre)), LastSet(MapSeq(FinishOf, mid)), LastSet(MapSeq(FinishOf, post));
      LastSet(MapSeq(FinishOf, pre) + MapSeq(FinishOf, mid) + MapSeq(FinishOf, post))
      == if c != "" then c else if b != "" then b else a
  {
    LastSetAppend(MapSeq(FinishOf, pre) + MapSeq(FinishOf, mid), MapSeq(FinishOf, post));
    LastSetAppend(MapSeq(FinishOf, pre), MapSeq(FinishOf, mid));
  }

  /** What one event, or two neighbouring ones, tell. */
  lemma OneTold(e: Event, c: Choice)
    requires ReadEvent(e) == Some(c)
    ensures var cs := Choices([e]);
      PartsOf(cs) == c.tools && Join(MapSeq(ContentOf, cs)) == c.content && LastSet(MapSeq(FinishOf, cs)) == c.finish
  {
    assert [e][1..] == [];
    assert Choices([e]) == [Some(c)] && [Some(c)][1..] == [];
    assert c.tools + [] == c.tools && c.content + "" == c.content;
    assert [c.finish][..0] == [];
    assert MapSeq(FinishOf, [Some(c)]) == [c.finish];
  }

  lemma TwoTold(e: Event, f: Event, c: Choice, d: Choice)
    requires ReadEvent(e) == Some(c) && ReadEvent(f) == Some(d)
    ensures var cs := Choices([e, f]);
      && PartsOf(cs) == c.tools + d.tools && Join(MapSeq(ContentOf, cs)) == c.content + d.content
      && LastSet(MapSeq(FinishOf, cs)) == if d.finish != "" then d.finish else c.finish
  {
    assert [e, f] == [e] + [f];
    ChoicesAppend([e], [f]);
    OneTold(e, c);
    OneTold(f, d);
    PartsOfAppend(Choices([e]), Choices([f]));
    MapSeqAppend(ContentOf, Choices([e]), Choices([f]));
    JoinAppend(MapSeq(ContentOf, Choices([e])), MapSeq(ContentOf, Choices([f])));
    MapSeqAppend(FinishOf, Choices([e]), Choices([f]));
    LastSetAppend(MapSeq(FinishOf, Choices([e])), MapSeq(FinishOf, Choices([f])));
  }

  /** Cutting a chunk in two, its content anywhere and its parts between two of them, leaves the decoded
      turn as it was. */
  lemma SplittingChunk(raw: string, other: string, pre: seq<Event>, post: seq<Event>,
                       whole: Event, first: Event, second: Event, c: Choice, d: Choice)
    requires Events(raw) == pre + [first, second] + post && Events(other) == pre + [whole] + post
    requires ReadEvent(first) == Some(c) && ReadEvent(second) == Some(d) && c.finish == ""
    requires ReadEvent(whole) == Some(Choice(c.content + d.content, c.tools + d.tools, d.finish))
    ensures Decode(raw) == Decode(other)
  {
    TwoTold(first, second, c, d);
    OneTold(whole, Choice(c.content + d.content, c.tools + d.tools, d.finish));
    StretchReplaced(raw, other, pre, [first, second], [whole], post);
  }

  lemma PartsSplit(i: int, name: string, a: string, b: string)
    ensures TellSame([ToolPart(i, name, a)] + [ToolPart(i, "", b)], [ToolPart(i, name, a + b)])
  {
    var p, q, w := ToolPart(i, name, a), ToolPart(i, "", b), ToolPart(i, name, a + b);
    forall j ensures var x, y := [p] + [q], [w];
      (Own(x, j) == [] <==> Own(y, j) == []) && Spelled(x, j) == Spelled(y, j)
    {
      SpelledSnoc([p], q, j);
      SpelledSnoc([], p, j);
      SpelledSnoc([], w, j);
      OwnSnoc([p], q, j);
      OwnSnoc([], p, j);
      OwnSnoc([], w, j);
      assert [] + [p] == [p] && [] + [w] == [w];
      assert "" + a == a && "" + (a + b) == a + b;
    }
  }

  /** Cutting one part in two, its arguments anywhere, leaves the decoded turn as it was. */
  lemma SplittingPart(raw: string, other: string, pre: seq<Event>, post: seq<Event>,
                      whole: Event, first: Event, second: Event, i: int, name: string, a: string, b: string)
    requires Events(raw) == pre + [first, second] + post && Events(other) == pre + [whole] + post
    requires ReadEvent(whole) == Part(ToolPart(i, name, a + b))
    requires ReadEvent(first) == Part(ToolPart(i, name, a)) && ReadEvent(second) == Part(ToolPart(i, "", b))
    ensures Decode(raw) == Decode(other)
  {
    TwoTold(first, second, Part(ToolPart(i, name, a)).value, Part(ToolPart(i, "", b)).value);
    OneTold(whole, Part(ToolPart(i, name, a + b)).value);
    PartsSplit(i, name, a, b);
    StretchReplaced(raw, other, pre, [first, second], [whole], post);
  }

  lemma PartsSwap(ps: seq<ToolPart>, qs: seq<ToolPart>)
    requires forall i :: Own(ps, i) == [] || Own(qs, i) == []
    ensures TellSame(ps + qs, qs + ps)
  {
    forall i ensures (Own(ps + qs, i) == [] <==> Own(qs + ps, i) == []) && Spelled(ps + qs, i) == Spelled(qs + ps, i) {
      OwnAppend(ps, qs, i);
      OwnAppend(qs, ps, i);
      NothingAdded(Own(ps, i));
      NothingAdded(Own(qs, i));
      assert Own(ps, i) == [] || Own(qs, i) == [];
    }
  }

  /** Swapping neighbouring chunks that tell of different calls, one of them of nothing else, leaves the
      decoded turn as it was. */
  lemma SwappingChunks(raw: string, other: string, pre: seq<Event>, post: seq<Event>, a: Event, b: Event,
                       c: Choice, ps: seq<ToolPart>)
    requires Events(raw) == pre + [a, b] + post && Events(other) == pre + [b, a] + post
    requires ReadEvent(a) == Some(c) && ReadEvent(b) == Some(Choice("", ps, ""))
    requires forall i :: Own(c.tools, i) == [] || Own(ps, i) == []
    ensures Decode(raw) == Decode(other)
  {
    TwoTold(a, b, c, Choice("", ps, ""));
    TwoTold(b, a, Choice("", ps, ""), c);
    NothingAdded(c.content);
    PartsSwap(c.tools, ps);
    StretchReplaced(raw, other, pre, [a, b], [b, a], post);
  }
}
