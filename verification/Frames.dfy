/** Stream bodies as frames, cut at blank lines. */
module Frames {
  import opened Lists
  import opened Texts

  predicate BreakAt(s: string, i: nat) {
    i + 1 < |s| && s[i] == '\n' && s[i + 1] == '\n'
  }

  /** The place of the first blank-line separator; the length when there is none. */
  function FirstBreak(s: string): (i: nat)
    ensures i <= |s| && (i < |s| ==> BreakAt(s, i)) && forall k: nat | k < i :: !BreakAt(s, k)
  {
    if s == "" then 0
    else if BreakAt(s, 0) then 0
    else
      var i := FirstBreak(s[1..]);
      assert forall k: nat | 0 < k < |s| :: BreakAt(s, k) == BreakAt(s[1..], k - 1);
      1 + i
  }

  predicate HasBreak(s: string) { FirstBreak(s) < |s| }

  /** The body cut after each separator; what is left over is a frame of its own. */
  function Split(body: string): seq<string>
    decreases |body|
  {
    if HasBreak(body) then [body[..FirstBreak(body) + 2]] + Split(body[FirstBreak(body) + 2..])
    else if body != "" then [body]
    else []
  }

  /** The number of separators, counted from the left without overlap. */
  function Count(body: string): nat
    decreases |body|
  {
    if HasBreak(body) then 1 + Count(body[FirstBreak(body) + 2..]) else 0
  }

  /** What follows the last separator. */
  function Tail(body: string): (t: string)
    ensures !HasBreak(t)
    decreases |body|
  {
    if HasBreak(body) then Tail(body[FirstBreak(body) + 2..]) else body
  }

  method SplitFrames(body: string) returns (frames: seq<string>)
    ensures frames == Split(body)
  {
    frames := [];
    var rest := body;
    while true
      invariant Split(body) == frames + Split(rest)
      decreases |rest|
    {
      var i := FirstBreak(rest);
      if i == |rest| {
        if |rest| > 0 { frames := frames + [rest]; }
        break;
      }
      Assoc(frames, [rest[..i + 2]], Split(rest[i + 2..]));
      frames := frames + [rest[..i + 2]];
      rest := rest[i + 2..];
    }
  }

  /** The frames spell the body, none is empty, and there are as many as separators, plus one exactly
      when the body does not end with a separator. */
  lemma {:induction false} SplitExact(body: string)
    ensures Join(Split(body)) == body
    ensures forall f <- Split(body) :: f != ""
    ensures |Split(body)| == Count(body) + (if Tail(body) == "" then 0 else 1)
    decreases |body|
  {
    if HasBreak(body) {
      var i := FirstBreak(body) + 2;
      SplitExact(body[i..]);
      assert Split(body)[1..] == Split(body[i..]);
      assert body == body[..i] + body[i..];
    }
  }

  /** A prefix of the frames of a body, as bytes, is a prefix of the body. */
  lemma FramesPrefix(body: string, n: nat)
    requires n <= |Split(body)|
    ensures Join(Split(body)[..n]) <= body
  {
    SplitExact(body);
    assert Split(body) == Split(body)[..n] + Split(body)[n..];
    JoinAppend(Split(body)[..n], Split(body)[n..]);
  }

  lemma BreakExtends(s: string, t: string)
    requires HasBreak(s)
    ensures FirstBreak(s + t) == FirstBreak(s)
  {
    var i := FirstBreak(s);
    assert BreakAt(s + t, i);
    assert forall k: nat | k < i :: BreakAt(s + t, k) == BreakAt(s, k);
  }

  /** Bytes that arrive later only add separators. */
  lemma {:induction false} CountGrows(s: string, t: string)
    ensures Count(s) <= Count(s + t)
    decreases |s|
  {
    if HasBreak(s) {
      var i := FirstBreak(s) + 2;
      BreakExtends(s, t);
      assert (s + t)[i..] == s[i..] + t;
      CountGrows(s[i..], t);
    }
  }
}
