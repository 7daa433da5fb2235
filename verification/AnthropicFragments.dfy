/** What deltas add up to. */
module AnthropicFragments {
  import opened Lists
  import opened Texts
  import opened Canon
  import opened Sse
  import opened Transcript
  import opened Anthropic

  // ---------------------------------------------------------------- a stream, read without a table

  function StopOf(d: Delta): string { if d.MessageDelta? then d.stop else "" }

  predicate Opens(d: Delta, i: int) { d.BlockStart? && d.index == i }

  /** What an event adds to the text, and to the arguments, of a block. */
  function TextFor(d: Delta, i: int): string {
    if d.BlockDelta? && d.index == i && d.kind == "text_delta" then d.text else ""
  }

  function ArgsFor(d: Delta, i: int): string {
    if d.BlockDelta? && d.index == i && d.kind == "input_json_delta" then d.json else ""
  }

  function TextsFor(ds: seq<Delta>, i: int): seq<string> { MapSeq(d => TextFor(d, i), ds) }

  function FragmentsFor(ds: seq<Delta>, i: int): seq<string> { MapSeq(d => ArgsFor(d, i), ds) }

  /** The blocks opened, in order, those opened again listed again. */
  function Opened(ds: seq<Delta>): seq<int> {
    if ds == [] then [] else (if ds[0].BlockStart? then [ds[0].index] else []) + Opened(ds[1..])
  }

  /** Where a block was last opened. */
  function LastOpen(ds: seq<Delta>, i: int): (k: int)
    ensures -1 <= k < |ds| && (k >= 0 ==> Opens(ds[k], i)) && forall j | k < j < |ds| :: !Opens(ds[j], i)
  {
    if ds == [] then -1
    else if Opens(ds[|ds| - 1], i) then |ds| - 1
    else LastOpen(ds[..|ds| - 1], i)
  }

  /** What was streamed of a block since it was last opened: type and name as opened, texts and argument
      fragments one after the other. */
  function Spelled(ds: seq<Delta>, i: int): Block {
    var k := LastOpen(ds, i);
    if k < 0 then Block("", "", "", "")
    else Block(ds[k].typ, ds[k].name, Join(TextsFor(ds[k + 1..], i)), Join(FragmentsFor(ds[k + 1..], i)))
  }

  /** The text of a text block, and the call of a tool block; anything else says nothing. */
  function TextOf(b: Block): string { if b.typ == "text" then b.text else "" }

  function CallsOf(b: Block): seq<ToolCall> {
    if b.typ == "tool_use" then [ToolCall(b.name, CanonArgs(b.args))] else []
  }

  function AllCalls(bs: seq<Block>): seq<ToolCall> {
    if bs == [] then [] else CallsOf(bs[0]) + AllCalls(bs[1..])
  }

  function SpelledTurn(ds: seq<Delta>): Turn {
    var bs := MapSeq(i => Spelled(ds, i), Opened(ds));
    Normalize(Turn("assistant", Join(MapSeq(TextOf, bs)), AllCalls(bs), LastSet(MapSeq(StopOf, ds))))
  }

  // ---------------------------------------------------------------- the table holds what was streamed

  lemma {:induction false} OpenedAppend(ds: seq<Delta>, more: seq<Delta>)
    ensures Opened(ds + more) == Opened(ds) + Opened(more)
  {
    if ds == [] {
      assert ds + more == more;
    } else {
      assert (ds + more)[1..] == ds[1..] + more;
      OpenedAppend(ds[1..], more);
      Assoc(if ds[0].BlockStart? then [ds[0].index] else [], Opened(ds[1..]), Opened(more));
    }
  }

  lemma OpenedSnoc(ds: seq<Delta>, d: Delta)
    ensures Opened(ds + [d]) == Opened(ds) + if d.BlockStart? then [d.index] else []
  {
    OpenedAppend(ds, [d]);
    assert [d][1..] == [];
  }

  lemma HeardSnoc(ds: seq<Delta>, d: Delta, i: int)
    ensures Join(TextsFor(ds + [d], i)) == Join(TextsFor(ds, i)) + TextFor(d, i)
    ensures Join(FragmentsFor(ds + [d], i)) == Join(FragmentsFor(ds, i)) + ArgsFor(d, i)
  {
    MapSeqSnoc(e => TextFor(e, i), ds, d);
    MapSeqSnoc(e => ArgsFor(e, i), ds, d);
    JoinSnoc(TextsFor(ds, i), TextFor(d, i));
    JoinSnoc(FragmentsFor(ds, i), ArgsFor(d, i));
  }

  lemma LastOpenSnoc(ds: seq<Delta>, d: Delta, i: int)
    ensures LastOpen(ds + [d], i) == if Opens(d, i) then |ds| else LastOpen(ds, i)
  {
    assert (ds + [d])[..|ds|] == ds;
  }

  lemma AfterSnoc(ds: seq<Delta>, d: Delta, k: nat)
    requires k <= |ds|
    ensures (ds + [d])[k] == if k < |ds| then ds[k] else d
    ensures (ds + [d])[k + 1..] == if k < |ds| then ds[k + 1..] + [d] else []
  {
  }

  lemma SpelledSnoc(ds: seq<Delta>, d: Delta, i: int)
    requires LastOpen(ds + [d], i) >= 0
    ensures var b := Spelled(ds, i);
      Spelled(ds + [d], i)
      == if Opens(d, i) then Block(d.typ, d.name, "", "")
         else b.(text := b.text + TextFor(d, i), args := b.args + ArgsFor(d, i))
  {
    LastOpenSnoc(ds, d, i);
    if Opens(d, i) {
      AfterSnoc(ds, d, |ds|);
      assert TextsFor([], i) == [] && FragmentsFor([], i) == [];
    } else {
      HeardAfter(ds, d, i, LastOpen(ds, i));
    }
  }

  lemma HeardAfter(ds: seq<Delta>, d: Delta, i: int, k: nat)
    requires k < |ds|
    ensures (ds + [d])[k] == ds[k]
    ensures Join(TextsFor((ds + [d])[k + 1..], i)) == Join(TextsFor(ds[k + 1..], i)) + TextFor(d, i)
    ensures Join(FragmentsFor((ds + [d])[k + 1..], i)) == Join(FragmentsFor(ds[k + 1..], i)) + ArgsFor(d, i)
  {
    AfterSnoc(ds, d, k);
    HeardSnoc(ds[k + 1..], d, i);
  }

  predicate IsError(d: Delta) { d.StreamError? }

  ghost predicate Holds(blocks: map<int, Block>, ds: seq<Delta>) {
    && (forall i :: i in blocks <==> LastOpen(ds, i) >= 0)
    && (forall i | i in blocks :: blocks[i] == Spelled(ds, i))
  }

  ghost predicate Gathered(st: State, ds: seq<Delta>) {
    && st.order == Opened(ds) && Holds(st.blocks, ds)
    && st.finish == LastSet(MapSeq(StopOf, ds))
    && (st.failed <==> exists k | 0 <= k < |ds| :: IsError(ds[k]))
  }

  lemma ExtendedBy(b: Block, d: Delta, i: int)
    requires d.BlockDelta? && d.index == i
    ensures Extend(b, d.kind, d.text, d.json) == b.(text := b.text + TextFor(d, i), args := b.args + ArgsFor(d, i))
  {
    NothingAdded(b.text);
    NothingAdded(b.args);
    assert "text_delta"[0] != "input_json_delta"[0];
  }

  lemma EntryAfter(st: State, ds: seq<Delta>, d: Delta, i: int)
    requires i in Apply(st, d).blocks && LastOpen(ds + [d], i) >= 0
    requires i in st.blocks ==> st.blocks[i] == Spelled(ds, i)
    ensures Apply(st, d).blocks[i] == Spelled(ds + [d], i)
  {
    SpelledSnoc(ds, d, i);
    NothingAdded(Spelled(ds, i).text);
    NothingAdded(Spelled(ds, i).args);
    if d.BlockDelta? && d.index == i && i in st.blocks { ExtendedBy(st.blocks[i], d, i); }
  }

  lemma TableAfter(st: State, ds: seq<Delta>, d: Delta)
    requires Holds(st.blocks, ds)
    ensures Holds(Apply(st, d).blocks, ds + [d])
  {
    var u := Apply(st, d).blocks;
    forall i ensures i in u <==> LastOpen(ds + [d], i) >= 0 { KnownAfter(st, ds, d, i); }
    forall i | i in u ensures u[i] == Spelled(ds + [d], i) { EntryAfter(st, ds, d, i); }
  }

  lemma KnownAfter(st: State, ds: seq<Delta>, d: Delta, i: int)
    requires i in st.blocks <==> LastOpen(ds, i) >= 0
    ensures i in Apply(st, d).blocks <==> LastOpen(ds + [d], i) >= 0
  {
    LastOpenSnoc(ds, d, i);
  }

  lemma FailedAfter(st: State, ds: seq<Delta>, d: Delta)
    requires st.failed <==> exists k | 0 <= k < |ds| :: IsError(ds[k])
    ensures Apply(st, d).failed <==> exists k | 0 <= k < |ds + [d]| :: IsError((ds + [d])[k])
  {
    var all := ds + [d];
    assert all[|ds|] == d;
    if st.failed {
      var k :| 0 <= k < |ds| && IsError(ds[k]);
      assert all[k] == ds[k];
    }
    if IsError(d) { assert IsError(all[|ds|]); }
    forall k | 0 <= k < |ds| ensures all[k] == ds[k] {}
  }

  lemma DeltaGathered(st: State, ds: seq<Delta>, d: Delta)
    requires Gathered(st, ds)
    ensures Gathered(Apply(st, d), ds + [d])
  {
    TableAfter(st, ds, d);
    FailedAfter(st, ds, d);
    OpenedSnoc(ds, d);
    NothingAdded(Opened(ds));
    MapSeqSnoc(StopOf, ds, d);
    LastSetSnoc(MapSeq(StopOf, ds), StopOf(d));
  }

  lemma {:induction false} FoldGathers(st: State, ds: seq<Delta>, more: seq<Delta>)
    requires Gathered(st, ds)
    ensures Gathered(Fold(Apply, st, more), ds + more)
    decreases |more|
  {
    if more == [] {
      assert ds + more == ds;
    } else {
      OneMore(ds, more);
      DeltaGathered(st, ds, more[0]);
      FoldGathers(Apply(st, more[0]), ds + [more[0]], more[1..]);
    }
  }

  lemma {:induction false} OpenedLast(ds: seq<Delta>)
    ensures forall i <- Opened(ds) :: LastOpen(ds, i) >= 0
  {
    if ds != [] {
      var n := |ds| - 1;
      assert ds == ds[..n] + [ds[n]];
      OpenedLast(ds[..n]);
      OpenedSnoc(ds[..n], ds[n]);
    }
  }

  lemma {:induction false} BlocksRead(order: seq<int>, blocks: map<int, Block>, ds: seq<Delta>)
    requires forall i <- order :: i in blocks && blocks[i] == Spelled(ds, i)
    ensures var bs := MapSeq(i => Spelled(ds, i), order);
      BlockTexts(order, blocks) == Join(MapSeq(TextOf, bs)) && BlockCalls(order, blocks) == AllCalls(bs)
  {
    if order != [] {
      assert order[0] in order;
      forall i <- order[1..] ensures i in blocks && blocks[i] == Spelled(ds, i) { assert i in order; }
      BlocksRead(order[1..], blocks, ds);
    }
  }

  lemma {:induction false} DeltaAt(events: seq<Event>, k: nat)
    requires k < |events|
    ensures |Deltas(events)| == |events| && Deltas(events)[k] == ReadEvent(events[k])
  {
    if k > 0 { DeltaAt(events[1..], k - 1); } else if |events| > 1 { DeltaAt(events[1..], 0); }
  }

  lemma ErrorKinds(ev: Event)
    ensures IsError(ReadEvent(ev)) <==> ev.typ == "error"
  {
    assert |"error"| != |"content_block_start"| && |"error"| != |"content_block_delta"| && |"error"| != |"message_delta"|;
  }

  /** The stream carries an error event exactly when one of its deltas is an error. */
  lemma ErrorsTold(events: seq<Event>)
    ensures var ds := Deltas(events);
      (exists k | 0 <= k < |ds| :: IsError(ds[k])) <==> exists k | 0 <= k < |events| :: events[k].typ == "error"
  {
    var ds := Deltas(events);
    DeltasCount(events);
    forall k: nat | k < |events| ensures IsError(ds[k]) <==> events[k].typ == "error" {
      DeltaAt(events, k);
      ErrorKinds(events[k]);
    }
    if k :| 0 <= k < |events| && events[k].typ == "error" { assert IsError(ds[k]); }
  }

  lemma {:induction false} DeltasCount(events: seq<Event>)
    ensures |Deltas(events)| == |events|
  {
    if events != [] { DeltasCount(events[1..]); }
  }

  lemma FoldDecodes(ds: seq<Delta>)
    ensures var st := Fold(Apply, START, ds);
      && Assemble(st) == SpelledTurn(ds)
      && (st.failed <==> exists k | 0 <= k < |ds| :: IsError(ds[k]))
  {
    FoldGathers(START, [], ds);
    NothingAdded(ds);
    OpenedLast(ds);
    var st := Fold(Apply, START, ds);
    BlocksRead(st.order, st.blocks, ds);
  }

  /** Any stream decodes to what its events spell: the texts of its text blocks and the calls of its tool
      blocks in opening order, each block with its deltas one after the other however they are interleaved,
      and the last stop reason; and it failed exactly when it carries an error event. */
  lemma DecodesToSpelled(raw: string)
    ensures Decode(raw).turn == SpelledTurn(Deltas(Events(raw)))
    ensures Decode(raw).failed <==> exists k | 0 <= k < |Events(raw)| :: Events(raw)[k].typ == "error"
  {
    FoldDecodes(Deltas(Events(raw)));
    ErrorsTold(Events(raw));
  }
}
