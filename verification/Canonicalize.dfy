/** Rewriting settled streams to their canonical bytes, in place and once for all, turn for turn alike. */
module Canonicalize {
  import opened Lists
  import opened Options
  import opened Transcript
  import opened Envelopes
  import opened Cassettes
  import opened Dialects
  import opened Port

  /** A streamed http response without an error that settles under the codec. */
  predicate Canonical(it: Interaction) {
    && it.kind == Http && it.response.body.Some? && it.response.streaming
    && !Decode(ProviderForURL(it.request.url), it.response.body.value).failed
    && Stable(ProviderForURL(it.request.url), it.response.body.value)
  }

  function CanonicalBytes(it: Interaction): string
    requires it.response.body.Some?
  {
    var p := ProviderForURL(it.request.url);
    Encode(p, Decode(p, it.response.body.value).turn, ZERO)
  }

  predicate Rewrites(it: Interaction) {
    Canonical(it) && CanonicalBytes(it) != it.response.body.value
  }

  function CanonOne(it: Interaction): Interaction {
    if Rewrites(it) then it.(response := it.response.(body := NewBody(CanonicalBytes(it)), timing := [])) else it
  }

  function CountRewrites(items: seq<Interaction>): nat {
    if items == [] then 0 else (if Rewrites(items[0]) then 1 else 0) + CountRewrites(items[1..])
  }

  lemma {:induction false} CountSnoc(items: seq<Interaction>, it: Interaction)
    ensures CountRewrites(items + [it]) == CountRewrites(items) + if Rewrites(it) then 1 else 0
  {
    if items == [] {
      assert items + [it] == [it] && [it][1..] == [];
    } else {
      assert (items + [it])[1..] == items[1..] + [it];
      CountSnoc(items[1..], it);
    }
  }

  /** The first i interactions have been rewritten. */
  predicate Rewritten(was: seq<Interaction>, now: seq<Interaction>, i: nat, n: nat) {
    i <= |was| && now == MapSeq(CanonOne, was[..i]) + was[i..] && n == CountRewrites(was[..i])
  }

  lemma RewrittenAt(was: seq<Interaction>, now: seq<Interaction>, i: nat, n: nat)
    requires i < |was| && Rewritten(was, now, i, n)
    ensures now[i] == was[i]
    ensures Rewritten(was, now[i := CanonOne(was[i])], i + 1, n + if Rewrites(was[i]) then 1 else 0)
  {
    CountNext(was, i);
    MapSeqStep(CanonOne, was, i);
  }

  lemma CountNext(items: seq<Interaction>, i: nat)
    requires i < |items|
    ensures CountRewrites(items[..i + 1]) == CountRewrites(items[..i]) + if Rewrites(items[i]) then 1 else 0
  {
    assert items[..i + 1] == items[..i] + [items[i]];
    CountSnoc(items[..i], items[i]);
  }

  method CanonicalizeItem(it: Interaction) returns (out: Interaction, changed: bool)
    ensures out == CanonOne(it) && changed == Rewrites(it)
  {
    out, changed := it, false;
    if it.kind == Http && it.response.body.Some? && it.response.streaming {
      var p := ProviderForURL(it.request.url);
      var raw := it.response.body.value;
      var d := Decode(p, raw);
      if !d.failed && Stable(p, raw) {
        var canonical := Encode(p, d.turn, ZERO);
        if canonical != raw {
          out := it.(response := it.response.(body := NewBody(canonical), timing := []));
          changed := true;
        }
      }
    }
  }

  /** The rewrite in place: each interaction becomes its canonical form, the rewritten ones are counted. */
  method CanonicalizeFile(items: array<Interaction>) returns (n: nat)
    modifies items
    ensures items[..] == MapSeq(CanonOne, old(items[..])) && n == CountRewrites(old(items[..]))
  {
    n := 0;
    var i := 0;
    ghost var was := items[..];
    while i < items.Length
      invariant 0 <= i <= items.Length && Rewritten(was, items[..], i, n)
    {
      RewrittenAt(was, items[..], i, n);
      var it, changed := CanonicalizeItem(items[i]);
      items[i] := it;
      if changed { n := n + 1; }
      i := i + 1;
    }
    assert was[..i] == was && was[i..] == [];
  }

  /** The canonical bytes decode to the same turn, and are canonical themselves. */
  lemma CanonicalBytesSettle(p: Provider, raw: string)
    requires Stable(p, raw)
    ensures var t := Decode(p, raw).turn;
      Encode(p, t, ZERO) != "" && Decode(p, Encode(p, t, ZERO)) == Dialects.Ant.Decoded(t, false)
  {
    var t := Decode(p, raw).turn;
    EncodeStarts(p, t, ZERO);
    DecodeEncode(p, t, ZERO);
    EqualIffNormalizedSame(t, Decode(p, Encode(p, t, ZERO)).turn);
    DecodedShape(p, raw);
    DecodedShape(p, Encode(p, t, ZERO));
    NormalizeSettles(t);
    NormalizeSettles(Decode(p, Encode(p, t, ZERO)).turn);
  }

  /** Canonicalizing twice is canonicalizing once, and every reading of the interaction is kept. */
  lemma CanonOneSettles(r: Readers, it: Interaction)
    ensures CanonOne(CanonOne(it)) == CanonOne(it) && !Rewrites(CanonOne(it))
    ensures DecodeInteraction(r, CanonOne(it)) == DecodeInteraction(r, it)
    ensures !Canonical(it) ==> CanonOne(it) == it
    ensures CanonOne(it).request == it.request && CanonOne(it).kind == it.kind
  {
    if Rewrites(it) { CanonicalBytesSettle(ProviderForURL(it.request.url), it.response.body.value); }
  }

  /** A settled stream ends as its canonical bytes, which decode to its turn. */
  lemma CanonicalBody(it: Interaction)
    requires Canonical(it)
    ensures var p := ProviderForURL(it.request.url);
      && CanonOne(it).response.body == Some(CanonicalBytes(it))
      && Decode(p, CanonicalBytes(it)).turn == Decode(p, it.response.body.value).turn
  {
    CanonicalBytesSettle(ProviderForURL(it.request.url), it.response.body.value);
  }

  /** Two settled streams of one dialect end byte-identical exactly when they decode to the same turn. */
  lemma SameTurnSameBytes(a: Interaction, b: Interaction)
    requires Canonical(a) && Canonical(b) && ProviderForURL(a.request.url) == ProviderForURL(b.request.url)
    ensures CanonOne(a).response.body == CanonOne(b).response.body <==>
      Decode(ProviderForURL(a.request.url), a.response.body.value).turn
      == Decode(ProviderForURL(b.request.url), b.response.body.value).turn
  {
    CanonicalBody(a);
    CanonicalBody(b);
  }

  /** Which streams are left alone, told from the decoded turn: error streams, and turns with
      arguments the dialect cannot carry. */
  lemma CanonicalIff(it: Interaction)
    requires it.kind == Http && it.response.body.Some? && it.response.streaming
    ensures var p := ProviderForURL(it.request.url); var d := Decode(p, it.response.body.value);
      Canonical(it) <==> !d.failed && (TextArgs(p) || ValidArgs(d.turn.calls))
  {
    StableIff(ProviderForURL(it.request.url), it.response.body.value);
  }

  lemma {:induction false} SecondPassIdle(r: Readers, items: seq<Interaction>)
    ensures MapSeq(CanonOne, MapSeq(CanonOne, items)) == MapSeq(CanonOne, items)
    ensures CountRewrites(MapSeq(CanonOne, items)) == 0
    ensures CollectTurns(r, MapSeq(CanonOne, items)) == CollectTurns(r, items)
  {
    if items != [] {
      CanonOneSettles(r, items[0]);
      SecondPassIdle(r, items[1..]);
      assert MapSeq(CanonOne, items)[1..] == MapSeq(CanonOne, items[1..]);
    }
  }
}
