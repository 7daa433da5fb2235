/** Stream timing: stamped when captured, paced when replayed. */
module Timing {
  import opened Lists
  import opened Options
  import opened Texts
  import opened Frames
  import opened Cassettes

  // ---------------------------------------------------------------- capture

  /** A read that delivered bytes, with the clock (in nanoseconds) as the marking begins and as it
      stamps. */
  datatype Arrival = Arrival(bytes: string, first: int, stamp: int)

  /** What the tee holds: the bytes so far, the start of the clock, and one cumulative stamp a frame. */
  datatype Tee = Tee(buf: string, start: Option<int>, marks: seq<int>)

  const EMPTY_TEE := Tee("", None, [])

  /** Whole milliseconds, truncated toward zero. */
  function Millis(ns: int): int {
    if ns >= 0 then ns / 1_000_000 else -(-ns / 1_000_000)
  }

  function Repeat(x: int, n: nat): (r: seq<int>)
    ensures |r| == n && forall i | 0 <= i < n :: r[i] == x
  {
    if n == 0 then [] else [x] + Repeat(x, n - 1)
  }

  function Arrive(t: Tee, a: Arrival): Tee {
    if a.bytes == "" then t
    else
      var buf := t.buf + a.bytes;
      var start := if t.start.Some? then t.start.value else a.first;
      var added := if Count(buf) <= |t.marks| then 0 else Count(buf) - |t.marks|;
      Tee(buf, Some(start), t.marks + Repeat(Millis(a.stamp - start), added))
  }

  /** What is written to the recording when a capture ends. */
  datatype Captured = Captured(body: Option<string>, timing: seq<int>, error: string)

  function Deltas(cum: seq<int>, prev: int): seq<int> {
    if cum == [] then []
    else [if cum[0] - prev < 0 then 0 else cum[0] - prev] + Deltas(cum[1..], cum[0])
  }

  const INCOMPLETE: string := "incomplete gzip stream capture"

  function Finished(t: Tee, gunzip: Option<string -> Option<string>>): Captured {
    match gunzip
    case None => Captured(NewBody(t.buf), Deltas(t.marks, 0), "")
    case Some(f) =>
      var d := f(t.buf);
      if d.Some? then Captured(NewBody(d.value), Deltas(t.marks, 0), "") else Captured(None, Deltas(t.marks, 0), INCOMPLETE)
  }

  lemma {:induction false} DeltasAppend(a: seq<int>, b: seq<int>, prev: int)
    ensures Deltas(a + b, prev) == Deltas(a, prev) + Deltas(b, if a == [] then prev else a[|a| - 1])
  {
    if a == [] {
      assert a + b == b;
    } else {
      assert (a + b)[1..] == a[1..] + b;
      DeltasAppend(a[1..], b, a[0]);
    }
  }

  method CumToDeltas(cum: seq<int>) returns (d: seq<int>)
    ensures d == Deltas(cum, 0)
  {
    d := [];
    var prev, i := 0, 0;
    while i < |cum|
      invariant 0 <= i <= |cum| && d == Deltas(cum[..i], 0)
      invariant prev == if i == 0 then 0 else cum[i - 1]
    {
      var v := cum[i];
      var step := v - prev;
      if step < 0 { step := 0; }
      assert cum[..i + 1] == cum[..i] + [v] && [v][1..] == [];
      DeltasAppend(cum[..i], [v], 0);
      d := d + [step];
      prev := v;
      i := i + 1;
    }
    assert cum[..|cum|] == cum;
  }

  class StreamCapture {
    const gunzip: Option<string -> Option<string>>
    const timing: bool
    var buf: string
    var start: Option<int>
    var framed: nat
    var cumMS: seq<int>
    var done: bool
    var stored: Option<Captured>

    ghost predicate Valid()
      reads this
    {
      && framed == |cumMS| && (done <==> stored.Some?)
      && (timing ==> framed == Count(buf)) && (!timing ==> cumMS == [])
    }

    ghost function State(): Tee
      reads this
    {
      Tee(buf, start, cumMS)
    }

    /** A compressed stream is never stamped: its bytes have no frames. */
    constructor (captureTiming: bool, gunzip: Option<string -> Option<string>>)
      ensures Valid() && State() == EMPTY_TEE && stored.None?
      ensures this.gunzip == gunzip && timing == (captureTiming && gunzip.None?)
    {
      this.gunzip := gunzip;
      timing := captureTiming && gunzip.None?;
      buf, start, framed, cumMS, done, stored := "", None, 0, [], false, None;
    }

    method MarkFrames(first: int, stamp: int)
      requires timing && framed == |cumMS|
      modifies this`start, this`framed, this`cumMS
      ensures start == Some(if old(start).Some? then old(start).value else first)
      ensures framed == |cumMS| && (old(framed) <= Count(buf) ==> framed == Count(buf))
      ensures var added := if Count(buf) <= old(framed) then 0 else Count(buf) - old(framed);
        cumMS == old(cumMS) + Repeat(Millis(stamp - start.value), added)
    {
      if start.None? { start := Some(first); }
      var total := Count(buf);
      if total <= framed { return; }
      var ms := Millis(stamp - start.value);
      ghost var from := start;
      while framed < total
        invariant start == from
        invariant old(framed) <= framed <= total && framed == |cumMS|
        invariant cumMS == old(cumMS) + Repeat(ms, framed - old(framed))
      {
        cumMS := cumMS + [ms];
        framed := framed + 1;
      }
    }

    /** One read through the tee; the end of the stream finalizes the capture. */
    method Read(a: Arrival, eof: bool)
      requires Valid()
      modifies this
      ensures Valid()
      ensures State() == if timing then Arrive(old(State()), a) else old(State()).(buf := old(buf) + a.bytes)
      ensures stored == if old(stored).Some? || !eof then old(stored) else Some(Finished(State(), gunzip))
    {
      if a.bytes != "" {
        CountGrows(buf, a.bytes);
        buf := buf + a.bytes;
        if timing { MarkFrames(a.first, a.stamp); }
      } else {
        assert buf + a.bytes == buf;
      }
      if eof { Finalize(); }
    }

    /** Only the first finalization stores anything. */
    method Finalize()
      requires Valid()
      modifies this`done, this`stored
      ensures Valid() && done
      ensures stored == if old(stored).Some? then old(stored) else Some(Finished(State(), gunzip))
    {
      if done { return; }
      done := true;
      var deltas := CumToDeltas(cumMS);
      match gunzip {
        case None => stored := Some(Captured(NewBody(buf), deltas, ""));
        case Some(f) =>
          var d := f(buf);
          if d.Some? {
            stored := Some(Captured(NewBody(d.value), deltas, ""));
          } else {
            stored := Some(Captured(None, deltas, INCOMPLETE));
          }
      }
    }
  }

  // ---------------------------------------------------------------- stamps line up with frames

  function ArriveAll(t: Tee, arrivals: seq<Arrival>): Tee
    decreases |arrivals|
  {
    if arrivals == [] then t else ArriveAll(Arrive(t, arrivals[0]), arrivals[1..])
  }

  function AllBytes(arrivals: seq<Arrival>): string {
    if arrivals == [] then "" else arrivals[0].bytes + AllBytes(arrivals[1..])
  }

  /** For any chunking of a stream, what is captured is the stream, with one stamp for every
      separator. */
  lemma {:induction false} CapturesAll(t: Tee, arrivals: seq<Arrival>)
    requires |t.marks| == Count(t.buf)
    ensures var u := ArriveAll(t, arrivals); u.buf == t.buf + AllBytes(arrivals) && |u.marks| == Count(u.buf)
    decreases |arrivals|
  {
    if arrivals != [] {
      var a := arrivals[0];
      CountGrows(t.buf, a.bytes);
      CapturesAll(Arrive(t, a), arrivals[1..]);
      Assoc(t.buf, a.bytes, AllBytes(arrivals[1..]));
      assert a.bytes == "" ==> t.buf + a.bytes == t.buf;
    }
  }

  lemma {:induction false} MarksGrow(t: Tee, arrivals: seq<Arrival>)
    ensures var u := ArriveAll(t, arrivals); t.marks <= u.marks && (t.start.Some? ==> u.start == t.start)
    decreases |arrivals|
  {
    if arrivals != [] { MarksGrow(Arrive(t, arrivals[0]), arrivals[1..]); }
  }

  /** One arrival: bytes appended, and a stamp for every separator they complete. */
  lemma ArrivedOne(t: Tee, a: Arrival)
    requires |t.marks| == Count(t.buf)
    ensures var v := Arrive(t, a);
      && v.buf == t.buf + a.bytes && |v.marks| == Count(v.buf) && t.marks <= v.marks
      && forall i | |t.marks| <= i < |v.marks| :: v.start.Some? && v.marks[i] == Millis(a.stamp - v.start.value)
  {
    CountGrows(t.buf, a.bytes);
    assert a.bytes == "" ==> t.buf + a.bytes == t.buf;
  }

  /** Separators in the stream up to the j-th arrival. */
  function CountBefore(buf: string, arrivals: seq<Arrival>, j: nat): nat
    requires j <= |arrivals|
    decreases j
  {
    if j == 0 then Count(buf) else CountBefore(buf + arrivals[0].bytes, arrivals[1..], j - 1)
  }

  lemma {:induction false} CountBeforeIs(buf: string, arrivals: seq<Arrival>, j: nat)
    requires j <= |arrivals|
    ensures CountBefore(buf, arrivals, j) == Count(buf + AllBytes(arrivals[..j]))
    decreases j
  {
    if j == 0 {
      assert AllBytes(arrivals[..0]) == "" && buf + "" == buf;
    } else {
      CountBeforeIs(buf + arrivals[0].bytes, arrivals[1..], j - 1);
      assert arrivals[..j][1..] == arrivals[1..][..j - 1];
      Assoc(buf, arrivals[0].bytes, AllBytes(arrivals[1..][..j - 1]));
    }
  }

  /** The j-th arrival completes the i-th separator and stamps it. */
  predicate StampedBy(buf: string, arrivals: seq<Arrival>, u: Tee, i: nat, j: nat) {
    && j < |arrivals| && i < |u.marks| && u.start.Some?
    && CountBefore(buf, arrivals, j) <= i < CountBefore(buf, arrivals, j + 1)
    && u.marks[i] == Millis(arrivals[j].stamp - u.start.value)
  }

  lemma StampedLater(buf: string, a: Arrival, rest: seq<Arrival>, u: Tee, i: nat, k: nat)
    requires StampedBy(buf + a.bytes, rest, u, i, k)
    ensures StampedBy(buf, [a] + rest, u, i, k + 1)
  {
    var all := [a] + rest;
    assert all[1..] == rest && all[0] == a && all[k + 1] == rest[k];
    assert CountBefore(buf, all, k + 1) == CountBefore(buf + a.bytes, rest, k);
    assert CountBefore(buf, all, k + 2) == CountBefore(buf + a.bytes, rest, k + 1);
  }

  lemma StampedNow(t: Tee, a: Arrival, rest: seq<Arrival>, i: nat)
    requires |t.marks| == Count(t.buf) && |t.marks| <= i < |Arrive(t, a).marks|
    ensures StampedBy(t.buf, [a] + rest, ArriveAll(Arrive(t, a), rest), i, 0)
  {
    var v := Arrive(t, a);
    ArrivedOne(t, a);
    MarksGrow(v, rest);
    var all := [a] + rest;
    assert all[1..] == rest && all[0] == a;
    assert CountBefore(t.buf, all, 1) == CountBefore(v.buf, rest, 0) == |v.marks|;
  }

  lemma {:induction false} StampFound(t: Tee, arrivals: seq<Arrival>, i: nat) returns (j: nat)
    requires |t.marks| == Count(t.buf) && |t.marks| <= i < |ArriveAll(t, arrivals).marks|
    ensures StampedBy(t.buf, arrivals, ArriveAll(t, arrivals), i, j)
    decreases |arrivals|
  {
    var a, rest := arrivals[0], arrivals[1..];
    assert arrivals == [a] + rest;
    ArrivedOne(t, a);
    if i < |Arrive(t, a).marks| {
      StampedNow(t, a, rest, i);
      j := 0;
    } else {
      var k := StampFound(Arrive(t, a), rest, i);
      StampedLater(t.buf, a, rest, ArriveAll(t, arrivals), i, k);
      j := k + 1;
    }
  }

  lemma CountFromStart(arrivals: seq<Arrival>, j: nat)
    requires j <= |arrivals|
    ensures CountBefore("", arrivals, j) == Count(AllBytes(arrivals[..j]))
  {
    CountBeforeIs("", arrivals, j);
    var s := AllBytes(arrivals[..j]);
    assert "" + s == s;
  }

  lemma NothingYet()
    ensures |EMPTY_TEE.marks| == Count(EMPTY_TEE.buf) && EMPTY_TEE.buf == ""
  {
  }

  /** The i-th stamp is the time, since the first bytes, of the read that completed the i-th separator. */
  lemma StampedOnArrival(arrivals: seq<Arrival>, i: nat) returns (j: nat)
    requires i < |ArriveAll(EMPTY_TEE, arrivals).marks|
    ensures j < |arrivals| && Count(AllBytes(arrivals[..j])) <= i < Count(AllBytes(arrivals[..j + 1]))
    ensures var u := ArriveAll(EMPTY_TEE, arrivals);
      u.start.Some? && u.marks[i] == Millis(arrivals[j].stamp - u.start.value)
  {
    NothingYet();
    j := StampFound(EMPTY_TEE, arrivals, i);
    CountFromStart(arrivals, j);
    CountFromStart(arrivals, j + 1);
  }

  /** A clock that never goes back, from a moment on. */
  predicate Monotone(now: int, arrivals: seq<Arrival>)
    decreases |arrivals|
  {
    arrivals != [] ==> now <= arrivals[0].first <= arrivals[0].stamp && Monotone(arrivals[0].stamp, arrivals[1..])
  }

  /** The k-th arrival is the first that brings bytes. */
  predicate FirstBytes(arrivals: seq<Arrival>, k: nat) {
    k < |arrivals| && arrivals[k].bytes != "" && forall i | 0 <= i < k :: arrivals[i].bytes == ""
  }

  lemma {:induction false} StartFound(t: Tee, arrivals: seq<Arrival>) returns (k: nat)
    requires t.start.None? && AllBytes(arrivals) != ""
    ensures FirstBytes(arrivals, k) && ArriveAll(t, arrivals).start == Some(arrivals[k].first)
    ensures AllBytes(arrivals[..k]) == ""
    decreases |arrivals|
  {
    var a, rest := arrivals[0], arrivals[1..];
    if a.bytes != "" {
      MarksGrow(Arrive(t, a), rest);
      k := 0;
    } else {
      var m := StartFound(t, rest);
      k := m + 1;
      assert arrivals[..k][1..] == rest[..m];
    }
  }

  lemma {:induction false} ClockRuns(now: int, arrivals: seq<Arrival>, k: nat, j: nat)
    requires Monotone(now, arrivals) && k <= j < |arrivals|
    ensures now <= arrivals[k].first <= arrivals[j].stamp
    decreases |arrivals|
  {
    if k > 0 {
      ClockRuns(arrivals[0].stamp, arrivals[1..], k - 1, j - 1);
    } else if j > 0 {
      ClockRuns(arrivals[0].stamp, arrivals[1..], 0, j - 1);
    }
  }

  lemma {:induction false} BytesSoFar(arrivals: seq<Arrival>, i: nat, j: nat)
    requires i <= j <= |arrivals|
    ensures AllBytes(arrivals[..i]) <= AllBytes(arrivals[..j])
  {
    if i > 0 {
      assert arrivals[..i][1..] == arrivals[1..][..i - 1] && arrivals[..j][1..] == arrivals[1..][..j - 1];
      BytesSoFar(arrivals[1..], i - 1, j - 1);
    }
  }

  /** Under a clock that never goes back, the i-th stamp is the time from the first bytes to the read that
      completed the i-th separator, in whole milliseconds of a clock in nanoseconds. */
  lemma StampIsElapsed(arrivals: seq<Arrival>, now: int, i: nat) returns (k: nat, j: nat)
    requires Monotone(now, arrivals) && i < |ArriveAll(EMPTY_TEE, arrivals).marks|
    ensures FirstBytes(arrivals, k) && k <= j < |arrivals|
    ensures Count(AllBytes(arrivals[..j])) <= i < Count(AllBytes(arrivals[..j + 1]))
    ensures var ms := ArriveAll(EMPTY_TEE, arrivals).marks[i];
      ms * 1_000_000 <= arrivals[j].stamp - arrivals[k].first < (ms + 1) * 1_000_000
  {
    j := StampedOnArrival(arrivals, i);
    assert Count("") == 0;
    BytesSoFar(arrivals, j + 1, |arrivals|);
    assert arrivals[..|arrivals|] == arrivals;
    k := StartFound(EMPTY_TEE, arrivals);
    if j < k { BytesSoFar(arrivals, j + 1, k); }
    ClockRuns(now, arrivals, k, j);
  }

  predicate Nondecreasing(base: int, cum: seq<int>)
    decreases |cum|
  {
    cum != [] ==> base <= cum[0] && Nondecreasing(cum[0], cum[1..])
  }

  /** The stamps so far are in order and none is later than now. */
  predicate Stamped(t: Tee, now: int) {
    && Nondecreasing(0, t.marks)
    && (t.start.None? ==> t.marks == [])
    && (t.start.Some? ==> t.start.value <= now && forall i | 0 <= i < |t.marks| :: t.marks[i] <= Millis(now - t.start.value))
  }

  lemma {:induction false} NondecreasingAppend(base: int, cum: seq<int>, x: int, n: nat)
    requires Nondecreasing(base, cum) && base <= x && forall i | 0 <= i < |cum| :: cum[i] <= x
    ensures Nondecreasing(base, cum + Repeat(x, n))
    decreases |cum|, n
  {
    if cum != [] {
      assert (cum + Repeat(x, n))[1..] == cum[1..] + Repeat(x, n);
      NondecreasingAppend(cum[0], cum[1..], x, n);
    } else if n > 0 {
      assert cum + Repeat(x, n) == Repeat(x, n) && Repeat(x, n)[1..] == [] + Repeat(x, n - 1);
      NondecreasingAppend(x, [], x, n - 1);
    }
  }

  lemma ArriveStamped(t: Tee, now: int, a: Arrival)
    requires Stamped(t, now) && now <= a.first <= a.stamp
    ensures Stamped(Arrive(t, a), a.stamp)
  {
    var start := if t.start.Some? then t.start.value else a.first;
    var ms := Millis(a.stamp - start);
    var u := Arrive(t, a);
    if a.bytes != "" { NondecreasingAppend(0, t.marks, ms, |u.marks| - |t.marks|); }
  }

  lemma {:induction false} StampsInOrder(t: Tee, now: int, arrivals: seq<Arrival>)
    requires Stamped(t, now) && Monotone(now, arrivals)
    ensures Nondecreasing(0, ArriveAll(t, arrivals).marks)
    decreases |arrivals|
  {
    if arrivals != [] {
      ArriveStamped(t, now, arrivals[0]);
      StampsInOrder(Arrive(t, arrivals[0]), arrivals[0].stamp, arrivals[1..]);
    }
  }

  function PartialSums(d: seq<int>, base: int): seq<int> {
    if d == [] then [] else [base + d[0]] + PartialSums(d[1..], base + d[0])
  }

  /** The stored delays add up to the cumulative stamps exactly when those never decrease. */
  lemma {:induction false} DeltasSumBack(cum: seq<int>, prev: int)
    ensures PartialSums(Deltas(cum, prev), prev) == cum <==> Nondecreasing(prev, cum)
  {
    if cum != [] {
      var d := Deltas(cum, prev);
      assert d[1..] == Deltas(cum[1..], cum[0]);
      DeltasSumBack(cum[1..], cum[0]);
      var sums := PartialSums(d, prev);
      assert cum == [cum[0]] + cum[1..];
      assert sums == [prev + d[0]] + PartialSums(d[1..], prev + d[0]);
      if sums == cum {
        assert sums[0] == cum[0] && sums[1..] == cum[1..];
      }
    }
  }

  // ---------------------------------------------------------------- pacing

  /** The delays a replayed stream is paced with; none when it is delivered at once. */
  function Paced(body: string, timing: seq<int>): Option<seq<int>> {
    if timing == [] then None
    else
      var n := |Split(body)|;
      var delays := if n == |timing| + 1 then timing + [0] else timing;
      if n == |delays| then Some(delays) else None
  }

  lemma {:induction false} DeltasLength(cum: seq<int>, prev: int)
    ensures |Deltas(cum, prev)| == |cum|
  {
    if cum != [] { DeltasLength(cum[1..], cum[0]); }
  }

  lemma {:induction false} PartialSumsAppend(a: seq<int>, b: seq<int>, base: int)
    ensures PartialSums(a, base) <= PartialSums(a + b, base)
  {
    if a != [] {
      assert (a + b)[1..] == a[1..] + b;
      PartialSumsAppend(a[1..], b, base + a[0]);
    }
  }

  lemma PacingMatches(body: string, marks: seq<int>)
    requires |marks| == Count(body) && Nondecreasing(0, marks)
    ensures var timing := Deltas(marks, 0);
      timing != [] ==>
        && Paced(body, timing).Some? && |Paced(body, timing).value| == |Split(body)|
        && marks <= PartialSums(Paced(body, timing).value, 0)
  {
    SplitExact(body);
    DeltasLength(marks, 0);
    DeltasSumBack(marks, 0);
    PartialSumsAppend(Deltas(marks, 0), [0], 0);
  }

  /** Whatever was captured under a monotone clock, in whatever chunks and cut off wherever: pacing
      applies whenever there is timing, and each frame comes out when it came in. */
  lemma PacingAlwaysApplies(arrivals: seq<Arrival>, now: int)
    requires Monotone(now, arrivals)
    ensures var t := ArriveAll(EMPTY_TEE, arrivals); var timing := Deltas(t.marks, 0);
      && t.buf == AllBytes(arrivals)
      && (timing != [] ==>
            && Paced(t.buf, timing).Some? && |Paced(t.buf, timing).value| == |Split(t.buf)|
            && t.marks <= PartialSums(Paced(t.buf, timing).value, 0))
  {
    CapturesAll(EMPTY_TEE, arrivals);
    StampsInOrder(EMPTY_TEE, now, arrivals);
    var t := ArriveAll(EMPTY_TEE, arrivals);
    assert "" + AllBytes(arrivals) == AllBytes(arrivals);
    PacingMatches(t.buf, t.marks);
  }

  datatype Chunk = Data(bytes: string) | Eof | Cancelled

  /** Where a paced reader stands: the next frame and the unread bytes of the current one. */
  datatype Position = Position(i: nat, cur: string)

  datatype Fetched = Fetched(pauses: seq<int>, at: Position, cancelled: bool)

  function Nanoseconds(ms: int): int { ms * 1_000_000 }

  /** The pause before a frame, in nanoseconds, from its delay in milliseconds. */
  function PauseAt(delays: seq<int>, i: nat): int {
    if i < |delays| then Nanoseconds(delays[i]) else 0
  }

  /** Pauses and moves on until there are bytes to hand out; wakes tells which pauses end normally. */
  function Fetch(frames: seq<string>, delays: seq<int>, wakes: nat -> bool, p: Position): Fetched
    decreases |frames| - p.i
  {
    if p.cur != "" || p.i >= |frames| then Fetched([], p, false)
    else if !wakes(p.i) then Fetched([], p, true)
    else
      var f := Fetch(frames, delays, wakes, Position(p.i + 1, frames[p.i]));
      f.(pauses := [PauseAt(delays, p.i)] + f.pauses)
  }

  function Min(a: nat, b: nat): nat { if a < b then a else b }

  datatype Step = Step(chunk: Chunk, pauses: seq<int>, at: Position)

  function ReadStep(frames: seq<string>, delays: seq<int>, wakes: nat -> bool, p: Position, size: nat): Step {
    var f := Fetch(frames, delays, wakes, p);
    if f.cancelled then Step(Cancelled, f.pauses, f.at)
    else if f.at.cur == "" then Step(Eof, f.pauses, f.at)
    else
      var n := Min(size, |f.at.cur|);
      Step(Data(f.at.cur[..n]), f.pauses, Position(f.at.i, f.at.cur[n..]))
  }

  class PacedReader {
    const frames: seq<string>
    const delays: seq<int>
    const wakes: nat -> bool
    var i: nat
    var cur: string

    constructor (frames: seq<string>, delays: seq<int>, wakes: nat -> bool)
      ensures this.frames == frames && this.delays == delays && this.wakes == wakes && i == 0 && cur == ""
    {
      this.frames, this.delays, this.wakes, i, cur := frames, delays, wakes, 0, "";
    }

    method Read(size: nat) returns (chunk: Chunk, pauses: seq<int>)
      modifies this
      ensures Step(chunk, pauses, Position(i, cur)) == ReadStep(frames, delays, wakes, old(Position(i, cur)), size)
    {
      pauses := [];
      ghost var whole := Fetch(frames, delays, wakes, Position(i, cur));
      while cur == ""
        invariant whole == Ahead(pauses, Fetch(frames, delays, wakes, Position(i, cur)))
        decreases |frames| - i
      {
        if i >= |frames| {
          assert pauses + [] == pauses;
          return Eof, pauses;
        }
        if !wakes(i) {
          assert pauses + [] == pauses;
          return Cancelled, pauses;
        }
        Assoc(pauses, [PauseAt(delays, i)], Fetch(frames, delays, wakes, Position(i + 1, frames[i])).pauses);
        pauses := pauses + [PauseAt(delays, i)];
        cur := frames[i];
        i := i + 1;
      }
      assert pauses + [] == pauses;
      var n := Min(size, |cur|);
      chunk := Data(cur[..n]);
      cur := cur[n..];
    }
  }

  function Ahead(pauses: seq<int>, f: Fetched): Fetched {
    f.(pauses := pauses + f.pauses)
  }

  /** The bytes a reader still has to hand out. */
  function Unread(frames: seq<string>, p: Position): string {
    p.cur + if p.i <= |frames| then Join(frames[p.i..]) else ""
  }

  /** The pauses before frames i up to j. */
  function PauseRange(delays: seq<int>, i: nat, j: nat): seq<int>
    decreases j - i
  {
    if i >= j then [] else [PauseAt(delays, i)] + PauseRange(delays, i + 1, j)
  }

  lemma {:induction false} RangeJoin(delays: seq<int>, i: nat, j: nat, k: nat)
    requires i <= j <= k
    ensures PauseRange(delays, i, j) + PauseRange(delays, j, k) == PauseRange(delays, i, k)
    decreases j - i
  {
    if i < j {
      RangeJoin(delays, i + 1, j, k);
      Assoc([PauseAt(delays, i)], PauseRange(delays, i + 1, j), PauseRange(delays, j, k));
    } else {
      assert [] + PauseRange(delays, j, k) == PauseRange(delays, j, k);
    }
  }

  lemma {:induction false} FetchKeeps(frames: seq<string>, delays: seq<int>, wakes: nat -> bool, p: Position)
    requires p.i <= |frames|
    ensures var f := Fetch(frames, delays, wakes, p);
      && p.i <= f.at.i <= |frames| && f.pauses == PauseRange(delays, p.i, f.at.i)
      && Unread(frames, f.at) == Unread(frames, p)
      && (!f.cancelled && f.at.cur == "" ==> f.at.i == |frames|)
    decreases |frames| - p.i
  {
    if p.cur == "" && p.i < |frames| && wakes(p.i) {
      var q := Position(p.i + 1, frames[p.i]);
      FetchKeeps(frames, delays, wakes, q);
      assert frames[p.i..][1..] == frames[p.i + 1..];
      assert "" + Join(frames[p.i..]) == Join(frames[p.i..]);
    }
  }

  function ChunkBytes(c: Chunk): string {
    if c.Data? then c.bytes else ""
  }

  datatype Session = Session(out: string, pauses: seq<int>, last: Chunk, at: Position)

  /** A session of reads of any sizes. */
  function Reads(frames: seq<string>, delays: seq<int>, wakes: nat -> bool, p: Position, sizes: seq<nat>): Session
    requires sizes != []
    decreases |sizes|
  {
    var s := ReadStep(frames, delays, wakes, p, sizes[0]);
    if |sizes| == 1 then Session(ChunkBytes(s.chunk), s.pauses, s.chunk, s.at)
    else
      var r := Reads(frames, delays, wakes, s.at, sizes[1..]);
      Session(ChunkBytes(s.chunk) + r.out, s.pauses + r.pauses, r.last, r.at)
  }

  lemma HandOut(frames: seq<string>, at: Position, n: nat)
    requires n <= |at.cur| && at.i <= |frames|
    ensures at.cur[..n] + Unread(frames, Position(at.i, at.cur[n..])) == Unread(frames, at)
  {
    assert at.cur == at.cur[..n] + at.cur[n..];
    Assoc(at.cur[..n], at.cur[n..], Join(frames[at.i..]));
  }

  lemma StepKeeps(frames: seq<string>, delays: seq<int>, wakes: nat -> bool, p: Position, size: nat)
    requires p.i <= |frames|
    ensures var s := ReadStep(frames, delays, wakes, p, size);
      && p.i <= s.at.i <= |frames| && s.pauses == PauseRange(delays, p.i, s.at.i)
      && ChunkBytes(s.chunk) + Unread(frames, s.at) == Unread(frames, p)
      && (s.chunk == Eof ==> s.at.i == |frames| && s.at.cur == "")
  {
    FetchKeeps(frames, delays, wakes, p);
    var f := Fetch(frames, delays, wakes, p);
    var s := ReadStep(frames, delays, wakes, p, size);
    if s.chunk.Data? {
      HandOut(frames, f.at, Min(size, |f.at.cur|));
    } else {
      assert "" + Unread(frames, f.at) == Unread(frames, f.at);
    }
  }

  /** Nothing is lost, repeated or reordered, and every frame handed out was paused for once. */
  lemma {:induction false} ReadsKeep(frames: seq<string>, delays: seq<int>, wakes: nat -> bool, p: Position, sizes: seq<nat>)
    requires p.i <= |frames| && sizes != []
    ensures var r := Reads(frames, delays, wakes, p, sizes);
      && p.i <= r.at.i <= |frames| && r.pauses == PauseRange(delays, p.i, r.at.i)
      && r.out + Unread(frames, r.at) == Unread(frames, p)
      && (r.last == Eof ==> r.at.i == |frames| && r.at.cur == "")
    decreases |sizes|
  {
    StepKeeps(frames, delays, wakes, p, sizes[0]);
    if |sizes| > 1 {
      var s := ReadStep(frames, delays, wakes, p, sizes[0]);
      var r := Reads(frames, delays, wakes, s.at, sizes[1..]);
      ReadsKeep(frames, delays, wakes, s.at, sizes[1..]);
      RangeJoin(delays, p.i, s.at.i, r.at.i);
      Assoc(ChunkBytes(s.chunk), r.out, Unread(frames, r.at));
    }
  }

  lemma {:induction false} PausesAre(delays: seq<int>, i: nat)
    requires i <= |delays|
    ensures PauseRange(delays, i, |delays|) == MapSeq(Nanoseconds, delays[i..])
    decreases |delays| - i
  {
    if i < |delays| {
      PausesAre(delays, i + 1);
      assert delays[i..][1..] == delays[i + 1..];
    }
  }

  /** A paced stream read to its end, in reads of any sizes, is exactly the body, each frame after its
      own delay. */
  lemma PacedEmitsBody(body: string, timing: seq<int>, wakes: nat -> bool, sizes: seq<nat>)
    requires Paced(body, timing).Some? && sizes != []
    requires Reads(Split(body), Paced(body, timing).value, wakes, Position(0, ""), sizes).last == Eof
    ensures var r := Reads(Split(body), Paced(body, timing).value, wakes, Position(0, ""), sizes);
      r.out == body && r.pauses == MapSeq(Nanoseconds, Paced(body, timing).value)
  {
    var frames, delays := Split(body), Paced(body, timing).value;
    ReadsKeep(frames, delays, wakes, Position(0, ""), sizes);
    SplitExact(body);
    assert frames[0..] == frames && "" + Join(frames) == Join(frames);
    var r := Reads(frames, delays, wakes, Position(0, ""), sizes);
    assert frames[|frames|..] == [] && Unread(frames, r.at) == "";
    assert r.out + "" == r.out;
    PausesAre(delays, 0);
    assert delays[0..] == delays;
  }

  function Total(pauses: seq<int>): int {
    if pauses == [] then 0 else pauses[0] + Total(pauses[1..])
  }

  lemma {:induction false} TotalsAreSums(delays: seq<int>, base: int, i: nat)
    requires i < |delays|
    ensures |PartialSums(delays, base)| == |delays|
    ensures Nanoseconds(base) + Total(MapSeq(Nanoseconds, delays)[..i + 1]) == Nanoseconds(PartialSums(delays, base)[i])
  {
    var all := MapSeq(Nanoseconds, delays);
    assert all[..i + 1][1..] == all[1..][..i];
    if i > 0 {
      TotalsAreSums(delays[1..], base + delays[0], i - 1);
    } else {
      assert Total(all[1..][..0]) == 0;
      if |delays| > 1 { TotalsAreSums(delays[1..], base + delays[0], 0); }
    }
  }

  /** What is stored of a stream that was not compressed, and the delays it is replayed with. */
  function StoredBody(arrivals: seq<Arrival>): string {
    Bytes(Finished(ArriveAll(EMPTY_TEE, arrivals), None).body)
  }

  function StoredDelays(arrivals: seq<Arrival>): Option<seq<int>> {
    Paced(StoredBody(arrivals), Finished(ArriveAll(EMPTY_TEE, arrivals), None).timing)
  }

  /** What was captured under a clock that never goes back, stored and replayed to its end in reads of any
      sizes: the bytes are those that arrived, and the pauses before frame i have taken, when it comes out,
      the time that passed between the first bytes and the completion of that frame, to the millisecond. */
  lemma ReplayedOnTime(arrivals: seq<Arrival>, now: int, wakes: nat -> bool, sizes: seq<nat>, i: nat)
    returns (k: nat, j: nat)
    requires Monotone(now, arrivals) && i < Count(AllBytes(arrivals)) && sizes != []
    requires var delays := StoredDelays(arrivals);
      delays.Some? ==> Reads(Split(StoredBody(arrivals)), delays.value, wakes, Position(0, ""), sizes).last == Eof
    ensures FirstBytes(arrivals, k) && k <= j < |arrivals|
    ensures Count(AllBytes(arrivals[..j])) <= i < Count(AllBytes(arrivals[..j + 1]))
    ensures var delays := StoredDelays(arrivals);
      && delays.Some?
      && var r := Reads(Split(StoredBody(arrivals)), delays.value, wakes, Position(0, ""), sizes);
        && r.out == AllBytes(arrivals) && i < |r.pauses|
        && Total(r.pauses[..i + 1]) <= arrivals[j].stamp - arrivals[k].first < Total(r.pauses[..i + 1]) + 1_000_000
  {
    var t := ArriveAll(EMPTY_TEE, arrivals);
    NothingYet();
    CapturesAll(EMPTY_TEE, arrivals);
    assert "" + AllBytes(arrivals) == AllBytes(arrivals);
    DeltasLength(t.marks, 0);
    PacingAlwaysApplies(arrivals, now);
    k, j := StampIsElapsed(arrivals, now, i);
    var timing := Deltas(t.marks, 0);
    PacedEmitsBody(t.buf, timing, wakes, sizes);
    TotalsAreSums(Paced(t.buf, timing).value, 0, i);
  }

  lemma {:induction false} AlwaysWakes(frames: seq<string>, delays: seq<int>, wakes: nat -> bool, p: Position)
    requires forall i | 0 <= i < |frames| :: wakes(i)
    ensures !Fetch(frames, delays, wakes, p).cancelled
    decreases |frames| - p.i
  {
    if p.cur == "" && p.i < |frames| { AlwaysWakes(frames, delays, wakes, Position(p.i + 1, frames[p.i])); }
  }

  /** An uncancelled stream does reach its end: every read with room takes at least one byte. */
  lemma {:induction false} PacedReachesEnd(frames: seq<string>, delays: seq<int>, wakes: nat -> bool, p: Position, sizes: seq<nat>)
    requires p.i <= |frames| && |sizes| > |Unread(frames, p)|
    requires (forall i | 0 <= i < |frames| :: wakes(i)) && (forall k | 0 <= k < |sizes| :: sizes[k] > 0)
    ensures Reads(frames, delays, wakes, p, sizes).last == Eof
    decreases |sizes|
  {
    AlwaysWakes(frames, delays, wakes, p);
    StepKeeps(frames, delays, wakes, p, sizes[0]);
    var s := ReadStep(frames, delays, wakes, p, sizes[0]);
    if s.chunk.Data? {
      assert |s.chunk.bytes| > 0;
      PacedReachesEnd(frames, delays, wakes, s.at, sizes[1..]);
    } else if |sizes| > 1 {
      EndStays(frames, delays, wakes, s.at, sizes[1..]);
    }
  }

  lemma {:induction false} EndStays(frames: seq<string>, delays: seq<int>, wakes: nat -> bool, p: Position, sizes: seq<nat>)
    requires p == Position(|frames|, "") && sizes != []
    ensures Reads(frames, delays, wakes, p, sizes).last == Eof
    decreases |sizes|
  {
    if |sizes| > 1 { EndStays(frames, delays, wakes, p, sizes[1..]); }
  }
}
