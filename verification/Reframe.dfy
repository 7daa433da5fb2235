/** Alternative framings of one turn. The random choices are parameters, so what is proved holds for all. */
module Reframe {
  import opened Lists
  import opened Texts
  import opened Sse
  import opened Transcript
  import opened Envelopes
  import opened Anthropic
  import opened AnthropicFraming

  // ---------------------------------------------------------------- splitting text

  function Cuts(s: string, points: set<int>, prev: nat, p: nat): (chunks: seq<string>)
    requires prev < p <= |s|
    decreases |s| - p
  {
    if p == |s| then [s[prev..]]
    else if p in points then [s[prev..p]] + Cuts(s, points, p, p + 1)
    else Cuts(s, points, prev, p + 1)
  }

  function Chunks(s: string, points: set<int>): seq<string> {
    if |s| < 2 then [s] else Cuts(s, points, 0, 1)
  }

  method SplitRunes(s: string, points: set<int>) returns (chunks: seq<string>)
    ensures chunks == Chunks(s, points)
  {
    if |s| < 2 {
      return [s];
    }
    chunks := [];
    var prev, p := 0, 1;
    while p < |s|
      invariant 0 <= prev < p <= |s|
      invariant Chunks(s, points) == chunks + Cuts(s, points, prev, p)
    {
      if p in points {
        Assoc(chunks, [s[prev..p]], Cuts(s, points, p, p + 1));
        chunks := chunks + [s[prev..p]];
        prev := p;
      }
      p := p + 1;
    }
    chunks := chunks + [s[prev..]];
  }

  function From(points: set<int>, p: int): set<int> {
    set x | x in points && p <= x
  }

  lemma {:induction false} CutsJoin(s: string, points: set<int>, prev: nat, p: nat)
    requires prev < p <= |s|
    ensures Join(Cuts(s, points, prev, p)) == s[prev..]
    ensures forall c <- Cuts(s, points, prev, p) :: c != ""
    ensures 1 <= |Cuts(s, points, prev, p)| <= 1 + |From(points, p)|
    decreases |s| - p
  {
    if p == |s| {
      assert [s[prev..]][1..] == [] && s[prev..] + "" == s[prev..];
    } else {
      if p in points {
        CutsJoin(s, points, p, p + 1);
        assert s[prev..p] + s[p..] == s[prev..];
        assert ([s[prev..p]] + Cuts(s, points, p, p + 1))[1..] == Cuts(s, points, p, p + 1);
        assert From(points, p) == From(points, p + 1) + {p};
      } else {
        CutsJoin(s, points, prev, p + 1);
        assert From(points, p) == From(points, p + 1);
      }
    }
  }

  /** The chunks spell the text; non-empty text gives non-empty chunks, at most one more than the
      cut points drawn. */
  lemma ChunksSpell(s: string, points: set<int>)
    ensures Join(Chunks(s, points)) == s
    ensures s != "" ==> forall c <- Chunks(s, points) :: c != ""
    ensures 1 <= |Chunks(s, points)| <= 1 + |points|
  {
    if |s| < 2 {
      assert [s][1..] == [] && s + "" == s;
    } else {
      CutsJoin(s, points, 0, 1);
      SubsetSize(From(points, 1), points);
    }
  }

  function Upto(n: nat): seq<nat> {
    seq(n, i requires 0 <= i => i)
  }

  predicate IsPermutation(order: seq<nat>, n: nat) {
    multiset(order) == multiset(Upto(n))
  }

  function Pick(calls: seq<ToolCall>, i: nat): ToolCall {
    if i < |calls| then calls[i] else ToolCall("", "")
  }

  function Shuffled(calls: seq<ToolCall>, order: seq<nat>): (r: seq<ToolCall>)
    ensures |r| == |order|
  {
    MapSeq(i => Pick(calls, i), order)
  }

  lemma ShuffledContents(calls: seq<ToolCall>, order: seq<nat>)
    requires IsPermutation(order, |calls|)
    ensures multiset(Shuffled(calls, order)) == multiset(calls)
  {
    MapSeqContents(i => Pick(calls, i), order, Upto(|calls|));
    var same := MapSeq(i => Pick(calls, i), Upto(|calls|));
    forall k | 0 <= k < |calls| ensures same[k] == calls[k] {
      MapSeqAt(i => Pick(calls, i), Upto(|calls|), k);
    }
    assert same == calls;
  }

  // ---------------------------------------------------------------- reframing

  /** reframeAnthropic, given the cut points and the order the generator drew. */
  function Reframed(turn: Turn, env: Envelope, points: set<int>, order: seq<nat>): string {
    var t := Normalize(turn);
    Render(Stream(env, if t.text == "" then [] else Chunks(t.text, points),
      ShuffledIds(env, order), Shuffled(t.calls, order), t.finish))
  }

  method EmitChunks(b: string, ghost done: seq<Frame>, chunks: seq<string>) returns (r: string)
    requires b == Render(done)
    ensures r == Render(done + TextDeltas(0, chunks))
  {
    r := b;
    ghost var out := done;
    var k := 0;
    assert chunks[0..] == chunks;
    while k < |chunks|
      invariant 0 <= k <= |chunks| && r == Render(out)
      invariant out + TextDeltas(0, chunks[k..]) == done + TextDeltas(0, chunks)
    {
      r := Emit(r, out, TextDelta(0, chunks[k]));
      assert chunks[k..][1..] == chunks[k + 1..];
      Assoc(out, [TextDelta(0, chunks[k])], TextDeltas(0, chunks[k + 1..]));
      out := out + [TextDelta(0, chunks[k])];
      k := k + 1;
    }
    assert out + [] == out;
  }

  function ShuffledIds(env: Envelope, order: seq<nat>): (r: seq<string>)
    ensures |r| == |order|
  {
    MapSeq(i => env.ToolId(i, "toolu_"), order)
  }

  lemma ShuffledAt(env: Envelope, calls: seq<ToolCall>, order: seq<nat>, k: nat)
    requires IsPermutation(order, |calls|) && k < |order|
    ensures order[k] < |calls|
    ensures ShuffledIds(env, order)[k] == env.ToolId(order[k], "toolu_") && Shuffled(calls, order)[k] == calls[order[k]]
  {
    assert order[k] in multiset(Upto(|calls|));
    MapSeqAt(i => env.ToolId(i, "toolu_"), order, k);
    MapSeqAt(i => Pick(calls, i), order, k);
  }

  /** The blocks from the k-th on, the first of them taken off. */
  lemma BlocksFrom(out: seq<Frame>, idx: int, ids: seq<string>, calls: seq<ToolCall>, k: nat, id: string, c: ToolCall)
    requires |ids| == |calls| && k < |calls| && ids[k] == id && calls[k] == c
    ensures out + ToolBlocks(idx, ids[k..], calls[k..])
         == (out + ToolBlock(idx, id, c)) + ToolBlocks(idx + 1, ids[k + 1..], calls[k + 1..])
  {
    assert ids[k..][1..] == ids[k + 1..] && calls[k..][1..] == calls[k + 1..];
    Assoc(out, ToolBlock(idx, id, c), ToolBlocks(idx + 1, ids[k + 1..], calls[k + 1..]));
  }

  lemma NoBlocks(out: seq<Frame>, idx: int, ids: seq<string>, calls: seq<ToolCall>)
    requires |ids| == |calls|
    ensures out + ToolBlocks(idx, ids[|ids|..], calls[|calls|..]) == out
  {
    assert calls[|calls|..] == [] && out + [] == out;
  }

  method EmitShuffled(b: string, ghost done: seq<Frame>, first: int, env: Envelope, calls: seq<ToolCall>, order: seq<nat>)
    returns (r: string)
    requires b == Render(done) && IsPermutation(order, |calls|)
    ensures r == Render(done + ToolBlocks(first, ShuffledIds(env, order), Shuffled(calls, order)))
  {
    r := b;
    ghost var out := done;
    ghost var ids, picked := ShuffledIds(env, order), Shuffled(calls, order);
    ghost var all := done + ToolBlocks(first, ids, picked);
    var idx, k := first, 0;
    assert ids[0..] == ids && picked[0..] == picked;
    while k < |order|
      invariant 0 <= k <= |order| && r == Render(out)
      invariant out + ToolBlocks(idx, ids[k..], picked[k..]) == all
    {
      var ti := order[k];
      ShuffledAt(env, calls, order, k);
      var id, c := env.ToolId(ti, "toolu_"), calls[ti];
      BlocksFrom(out, idx, ids, picked, k, id, c);
      r := EmitTool(r, out, idx, id, c);
      out := out + ToolBlock(idx, id, c);
      idx := idx + 1;
      k := k + 1;
    }
    NoBlocks(out, idx, ids, picked);
  }

  method EmitChunkedText(b: string, ghost done: seq<Frame>, chunks: seq<string>) returns (r: string)
    requires b == Render(done)
    ensures r == Render(done + TextBlock(chunks))
  {
    r := b;
    if |chunks| > 0 {
      r := Emit(r, done, OpenText(0));
      r := EmitChunks(r, done + [OpenText(0)], chunks);
      r := Emit(r, done + [OpenText(0)] + TextDeltas(0, chunks), CloseBlock(0));
      Assoc(done, [OpenText(0)], TextDeltas(0, chunks));
      Assoc(done, [OpenText(0)] + TextDeltas(0, chunks), [CloseBlock(0)]);
    } else {
      assert done + [] == done;
    }
  }

  /** The reframing as it is written out. */
  method ReframeAnthropic(turn: Turn, env: Envelope, points: set<int>, order: seq<nat>) returns (b: string)
    requires IsPermutation(order, |turn.calls|)
    ensures b == Reframed(turn, env, points, order)
  {
    var t := Normalize(turn);
    SortCallsSorts(turn.calls);
    assert |multiset(t.calls)| == |multiset(turn.calls)|;
    var chunks := [];
    if t.text != "" { chunks := SplitRunes(t.text, points); }
    ChunksSpell(t.text, points);
    var head := StartFrame(env);
    b := Emit("", [], head);
    assert [] + [head] == [head];
    b := EmitChunkedText(b, [head], chunks);
    ghost var done := [head] + TextBlock(chunks);
    var idx := if t.text == "" then 0 else 1;
    b := EmitShuffled(b, done, idx, env, t.calls, order);
    done := done + ToolBlocks(idx, ShuffledIds(env, order), Shuffled(t.calls, order));
    b := Emit(b, done, EndFrame(t.finish, env));
    b := Emit(b, done + [EndFrame(t.finish, env)], STOP);
  }

  /** Every reframing decodes to the same turn as the canonical stream, whatever was drawn. */
  lemma ReframedDecodes(turn: Turn, env: Envelope, points: set<int>, order: seq<nat>)
    requires IsPermutation(order, |turn.calls|)
    ensures Decode(Reframed(turn, env, points, order)) == Decode(Encode(turn, ZERO))
    ensures Decode(Reframed(turn, env, points, order)).turn
         == Normalize(Turn("assistant", turn.text, MapSeq(CanonCall, turn.calls), turn.finish))
  {
    var t := Normalize(turn);
    SortCallsSorts(turn.calls);
    SortCallsSettles(turn.calls);
    ChunksSpell(t.text, points);
    var calls := Shuffled(t.calls, order);
    ShuffledContents(t.calls, order);
    StreamDecodes(env, if t.text == "" then [] else Chunks(t.text, points),
      ShuffledIds(env, order), calls, t.finish);
    EncodeDecodes(turn, ZERO);
    MapSeqContents(CanonCall, calls, turn.calls);
    SortCallsSame(MapSeq(CanonCall, calls), MapSeq(CanonCall, turn.calls));
  }

  // ---------------------------------------------------------------- any stream, re-cut or reordered

  lemma {:induction false} DeltasAppend(a: seq<Event>, b: seq<Event>)
    ensures Deltas(a + b) == Deltas(a) + Deltas(b)
  {
    if a == [] {
      assert a + b == b;
    } else {
      assert (a + b)[1..] == a[1..] + b;
      DeltasAppend(a[1..], b);
    }
  }

  lemma AroundMiddle(pre: seq<Event>, mid: seq<Event>, post: seq<Event>)
    ensures Fold(Apply, START, Deltas(pre + mid + post))
         == Fold(Apply, Fold(Apply, Fold(Apply, START, Deltas(pre)), Deltas(mid)), Deltas(post))
  {
    DeltasAppend(pre + mid, post);
    DeltasAppend(pre, mid);
    FoldAppend(Apply, START, Deltas(pre) + Deltas(mid), Deltas(post));
    FoldAppend(Apply, START, Deltas(pre), Deltas(mid));
  }

  lemma DeltasOfTwo(a: Event, b: Event, st: State)
    ensures Fold(Apply, st, Deltas([a, b])) == Apply(Apply(st, ReadEvent(a)), ReadEvent(b))
    ensures Fold(Apply, st, Deltas([a])) == Apply(st, ReadEvent(a))
  {
    assert [a, b][1..] == [b] && [b][1..] == [] && [a][1..] == [];
    assert Deltas([a]) == [ReadEvent(a)] && Deltas([b]) == [ReadEvent(b)];
    assert Deltas([a, b]) == [ReadEvent(a), ReadEvent(b)];
    var d1, d2 := ReadEvent(a), ReadEvent(b);
    assert [d1, d2][1..] == [d2] && [d2][1..] == [] && [d1][1..] == [];
    assert Fold(Apply, Apply(st, d1), [d2]) == Apply(Apply(st, d1), d2);
  }

  /** Cutting one delta of any stream into two leaves the decoded turn as it was. */
  lemma SplittingDelta(pre: seq<Event>, post: seq<Event>, whole: Event, first: Event, second: Event,
                       i: int, kind: string, t1: string, t2: string, j1: string, j2: string)
    requires ReadEvent(whole) == BlockDelta(i, kind, t1 + t2, j1 + j2)
    requires ReadEvent(first) == BlockDelta(i, kind, t1, j1) && ReadEvent(second) == BlockDelta(i, kind, t2, j2)
    ensures DecodeEvents(pre + [first, second] + post) == DecodeEvents(pre + [whole] + post)
  {
    AroundMiddle(pre, [first, second], post);
    AroundMiddle(pre, [whole], post);
    var st := Fold(Apply, START, Deltas(pre));
    DeltasOfTwo(first, second, st);
    DeltasOfTwo(whole, whole, st);
    ExtendTwice(st, i, kind, t1, t2, j1, j2);
  }

  lemma ExtendTwice(st: State, i: int, kind: string, t1: string, t2: string, j1: string, j2: string)
    ensures Apply(Apply(st, BlockDelta(i, kind, t1, j1)), BlockDelta(i, kind, t2, j2))
         == Apply(st, BlockDelta(i, kind, t1 + t2, j1 + j2))
  {
    if i in st.blocks {
      var b := st.blocks[i];
      Assoc(b.text, t1, t2);
      Assoc(b.args, j1, j2);
      var b1 := Extend(b, kind, t1, j1);
      assert st.blocks[i := b1][i := Extend(b1, kind, t2, j2)] == st.blocks[i := Extend(b, kind, t1 + t2, j1 + j2)];
    }
  }

  lemma AppliedEitherWay(st: State, da: Delta, db: Delta)
    requires da.BlockDelta? && db.BlockDelta? && da.index != db.index
    ensures Apply(Apply(st, da), db) == Apply(Apply(st, db), da)
  {
    if da.index in st.blocks && db.index in st.blocks {
      var x := Extend(st.blocks[da.index], da.kind, da.text, da.json);
      var y := Extend(st.blocks[db.index], db.kind, db.text, db.json);
      assert st.blocks[da.index := x][db.index := y] == st.blocks[db.index := y][da.index := x];
    }
  }

  /** Swapping neighbouring deltas of different blocks leaves the decoded turn as it was. */
  lemma SwappingDeltas(pre: seq<Event>, post: seq<Event>, a: Event, b: Event)
    requires ReadEvent(a).BlockDelta? && ReadEvent(b).BlockDelta? && ReadEvent(a).index != ReadEvent(b).index
    ensures DecodeEvents(pre + [a, b] + post) == DecodeEvents(pre + [b, a] + post)
  {
    AroundMiddle(pre, [a, b], post);
    AroundMiddle(pre, [b, a], post);
    var st := Fold(Apply, START, Deltas(pre));
    DeltasOfTwo(a, b, st);
    DeltasOfTwo(b, a, st);
    AppliedEitherWay(st, ReadEvent(a), ReadEvent(b));
  }
}
