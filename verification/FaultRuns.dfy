/** Which attempt meets which fault. */
module FaultRuns {
  import opened Lists
  import opened Options
  import opened Texts
  import opened Cassettes
  import opened Frames
  import opened Replay
  import opened Faults

  // ---------------------------------------------------------------- the faults of an overlay

  /** Equal up to the case of letters. */
  predicate SameLetters(s: string, t: string) {
    |s| == |t| && forall i | 0 <= i < |s| :: Upper([s[i]]) == Upper([t[i]])
  }

  lemma {:induction false} UpperAt(s: string, i: nat)
    requires i < |s|
    ensures |Upper(s)| == |s| && [Upper(s)[i]] == Upper([s[i]])
  {
    assert [s[0]][1..] == "";
    assert [s[i]][1..] == "";
    if i > 0 { UpperAt(s[1..], i - 1); } else if |s| > 1 { UpperAt(s[1..], 0); }
  }

  lemma UpperSame(s: string, t: string)
    ensures Upper(s) == Upper(t) <==> SameLetters(s, t)
  {
    forall i: nat | i < |s| ensures |Upper(s)| == |s| && [Upper(s)[i]] == Upper([s[i]]) { UpperAt(s, i); }
    forall i: nat | i < |t| ensures |Upper(t)| == |t| && [Upper(t)[i]] == Upper([t[i]]) { UpperAt(t, i); }
    if s != "" { UpperAt(s, 0); }
    if t != "" { UpperAt(t, 0); }
    if Upper(s) == Upper(t) {
      assert |s| == |t|;
      forall i | 0 <= i < |s| ensures Upper([s[i]]) == Upper([t[i]]) {
        assert [Upper(s)[i]] == Upper([s[i]]) && [Upper(t)[i]] == Upper([t[i]]);
      }
    }
    if SameLetters(s, t) {
      forall i | 0 <= i < |s| ensures Upper(s)[i] == Upper(t)[i] {
        assert [Upper(s)[i]] == Upper([s[i]]) && [Upper(t)[i]] == Upper([t[i]]);
      }
    }
  }

  /** A fault names a method, in any case, and an end of the path; left empty, either is any. */
  lemma SelectsIff(f: Fault, verb: string, path: string)
    ensures f.Selects(verb, path)
      <==> (f.verb == "" || SameLetters(f.verb, verb)) && exists start: string :: path == start + f.path
  {
    UpperSame(f.verb, verb);
    if HasSuffix(path, f.path) {
      assert path == path[..|path| - |f.path|] + f.path;
    }
    if f.path == "" { assert path == path + f.path; }
  }

  /** The k-th fault is the first listed that is for a method, a path and an attempt. */
  predicate First(faults: seq<Fault>, k: int, verb: string, path: string, n: int) {
    0 <= k < |faults| && For(faults[k], verb, path, n) && forall j | 0 <= j < k :: !For(faults[j], verb, path, n)
  }

  predicate For(f: Fault, verb: string, path: string, n: int) {
    f.Selects(verb, path) && (f.attempt == 0 || f.attempt == n)
  }

  lemma {:induction false} FirstMatchIs(faults: seq<Fault>, verb: string, path: string, n: int)
    ensures forall k | First(faults, k, verb, path, n) :: FirstMatch(faults, verb, path, n) == Some(faults[k])
    ensures (forall k :: !First(faults, k, verb, path, n)) <==> FirstMatch(faults, verb, path, n).None?
  {
    if faults != [] {
      var rest := faults[1..];
      FirstMatchIs(rest, verb, path, n);
      if For(faults[0], verb, path, n) {
        assert First(faults, 0, verb, path, n);
      } else {
        forall k | k > 0 ensures First(faults, k, verb, path, n) <==> First(rest, k - 1, verb, path, n) {
          FirstShifts(faults, k, verb, path, n);
        }
        if FirstMatch(rest, verb, path, n).Some? {
          var k :| First(rest, k, verb, path, n);
          assert First(faults, k + 1, verb, path, n);
        }
      }
    }
  }

  lemma FirstShifts(faults: seq<Fault>, k: int, verb: string, path: string, n: int)
    requires faults != [] && !For(faults[0], verb, path, n) && k > 0
    ensures First(faults, k, verb, path, n) <==> First(faults[1..], k - 1, verb, path, n)
  {
    var rest := faults[1..];
    if First(faults, k, verb, path, n) {
      forall j | 0 <= j < k - 1 ensures !For(rest[j], verb, path, n) { assert rest[j] == faults[j + 1]; }
    }
    if First(rest, k - 1, verb, path, n) {
      forall j | 0 <= j < k ensures !For(faults[j], verb, path, n) { if j > 0 { assert rest[j - 1] == faults[j]; } }
    }
  }

  // ---------------------------------------------------------------- attempts counted over a run

  /** Which attempt at its key a call of a run is, counted from 1. */
  function Attempt(calls: seq<Call>, t: nat): nat
    requires t < |calls|
  {
    Times(KeysCalled(calls[..t]), calls[t].key) + 1
  }

  ghost predicate CountedSo(attempts: map<string, nat>, history: seq<string>) {
    forall key :: AttemptsOf(attempts, key) == Times(history, key)
  }

  /** What a call gets when it is the n-th at its key: it is failed by a fault exactly when the fault is
      synthetic and the first for it; and what is played is the recorded response as the first fault for it,
      if any, leaves it. */
  ghost predicate Got(faults: seq<Fault>, items: seq<Response>, call: Call, n: nat, o: Outcome) {
    && (forall f :: o == Injected(f)
          <==> f.Synthetic() && exists k :: First(faults, k, call.verb, call.path, n) && faults[k] == f)
    && (o.Played? ==>
          && o.index < |items|
          && (forall k | First(faults, k, call.verb, call.path, n) :: o.response == Modified(items[o.index], faults[k]))
          && ((forall k :: !First(faults, k, call.verb, call.path, n)) ==> o.response == items[o.index]))
  }

  lemma CallGot(faults: seq<Fault>, keys: Keys, items: seq<Response>, policy: Policy, st: FaultState, call: Call, n: nat)
    requires |keys| == |items|
    requires faults != [] ==> AttemptsOf(st.attempts, call.key) + 1 == n
    ensures Got(faults, items, call, n, Serve(faults, keys, items, policy, st, call).0)
  {
    FirstMatchIs(faults, call.verb, call.path, n);
    InRange(keys, policy, st.replay, call.key);
    var due := FirstMatch(faults, call.verb, call.path, n);
    var o := Serve(faults, keys, items, policy, st, call).0;
    assert FaultFor(faults, st.attempts, call).0 == due;
    if due.Some? {
      var k :| First(faults, k, call.verb, call.path, n);
      assert due.value == faults[k];
    }
  }

  lemma CountsOn(faults: seq<Fault>, attempts: map<string, nat>, history: seq<string>, call: Call)
    requires faults != [] && CountedSo(attempts, history)
    ensures CountedSo(FaultFor(faults, attempts, call).1, history + [call.key])
  {
    var next := FaultFor(faults, attempts, call).1;
    forall key ensures AttemptsOf(next, key) == Times(history + [call.key], key) {
      TimesOne(history, call.key, key);
      assert AttemptsOf(attempts, key) == Times(history, key);
    }
  }

  lemma {:induction false} GotLater(faults: seq<Fault>, keys: Keys, items: seq<Response>, policy: Policy, st: FaultState,
                                    history: seq<string>, calls: seq<Call>, t: nat, n: nat)
    requires |keys| == |items| && t < |calls| && n == Times(history + KeysCalled(calls[..t]), calls[t].key) + 1
    requires faults != [] ==> CountedSo(st.attempts, history)
    ensures Got(faults, items, calls[t], n, RunFaults(faults, keys, items, policy, st, calls).outcomes[t])
    decreases |calls|
  {
    if t == 0 {
      assert history + KeysCalled(calls[..0]) == history;
      CallGot(faults, keys, items, policy, st, calls[0], n);
    } else {
      if faults != [] { CountsOn(faults, st.attempts, history, calls[0]); }
      var next := Serve(faults, keys, items, policy, st, calls[0]).1;
      HistoryGrows(history, calls, t);
      GotLater(faults, keys, items, policy, next, history + [calls[0].key], calls[1..], t - 1, n);
    }
  }

  lemma HistoryGrows(history: seq<string>, calls: seq<Call>, t: nat)
    requires 0 < t <= |calls|
    ensures history + KeysCalled(calls[..t]) == history + [calls[0].key] + KeysCalled(calls[1..][..t - 1])
  {
    assert calls[..t][1..] == calls[1..][..t - 1] && calls[..t][0] == calls[0];
    Assoc(history, [calls[0].key], KeysCalled(calls[1..][..t - 1]));
  }

  /** Over any run from a fresh replay, whatever else is called: the n-th call of a key gets what the faults
      listed for its method, its path and its n-th attempt make of the recording. */
  lemma FaultsByAttempt(faults: seq<Fault>, keys: Keys, items: seq<Response>, policy: Policy, calls: seq<Call>, t: nat)
    requires |keys| == |items| && t < |calls|
    ensures Got(faults, items, calls[t], Attempt(calls, t),
                RunFaults(faults, keys, items, policy, FRESH, calls).outcomes[t])
  {
    NothingAdded(KeysCalled(calls[..t]));
    GotLater(faults, keys, items, policy, FRESH, [], calls, t, Attempt(calls, t));
  }

  /** The retry overlay: with one fault for the first attempt, exactly the first call of each key it
      selects fails. */
  lemma FirstAttemptFails(f: Fault, keys: Keys, items: seq<Response>, policy: Policy, calls: seq<Call>, t: nat)
    requires |keys| == |items| && t < |calls| && f.Synthetic() && f.attempt == 1
    ensures RunFaults([f], keys, items, policy, FRESH, calls).outcomes[t] == Injected(f)
      <==> f.Selects(calls[t].verb, calls[t].path) && calls[t].key !in KeysCalled(calls[..t])
  {
    FaultsByAttempt([f], keys, items, policy, calls, t);
    NeverCalled(KeysCalled(calls[..t]), calls[t].key);
    var n := Attempt(calls, t);
    if For(f, calls[t].verb, calls[t].path, n) { assert First([f], 0, calls[t].verb, calls[t].path, n); }
  }

  lemma {:induction false} NeverCalled(requests: seq<string>, key: string)
    ensures Times(requests, key) == 0 <==> key !in requests
  {
    if requests != [] {
      assert requests == [requests[0]] + requests[1..];
      NeverCalled(requests[1..], key);
    }
  }

  // ---------------------------------------------------------------- what a modified response holds

  /** The first frames of a body, as bytes, split into those frames again. */
  lemma {:induction false} FramesAgain(body: string, n: nat)
    requires n <= |Split(body)|
    ensures Split(Join(Split(body)[..n])) == Split(body)[..n]
    decreases |body|
  {
    if n > 0 {
      if HasBreak(body) {
        var i := FirstBreak(body) + 2;
        var first, rest := body[..i], Join(Split(body[i..])[..n - 1]);
        FramesAgain(body[i..], n - 1);
        assert Split(body)[..n] == [first] + Split(body[i..])[..n - 1];
        assert BreakAt(first, i - 2) && forall k: nat | k < i - 2 :: BreakAt(first, k) == BreakAt(body, k);
        BreakExtends(first, rest);
        assert (first + rest)[..i] == first && (first + rest)[i..] == rest;
      } else {
        assert Split(body)[..n] == [body] && [body][1..] == [] && body + "" == body;
      }
    }
  }

  function Min(a: int, b: int): int { if a < b then a else b }

  /** A fault that modifies leaves whole frames from the front: as many as it truncates after when there
      are more, one less when it drops the terminal one, and nothing else of the response but the timing is touched. */
  lemma ModifiedFrames(stored: Response, f: Fault)
    requires f.status <= 0
    ensures var was, left, after := Split(Bytes(stored.body)), Split(Bytes(Modified(stored, f).body)), f.truncateAfter;
      && left <= was
      && (after.None? || after.value < 0 ==> |left| == if f.dropTerminal && was != [] then |was| - 1 else |was|)
      && (after.Some? && after.value >= 0 && !f.dropTerminal ==> |left| == Min(after.value, |was|))
      && (after.Some? && after.value >= 0 && f.dropTerminal ==>
            |left| == if Min(after.value, |was|) > 0 then Min(after.value, |was|) - 1 else 0)
    ensures Modified(stored, f) == stored
         || Modified(stored, f) == stored.(body := Modified(stored, f).body, timing := [])
  {
    var was := Split(Bytes(stored.body));
    if Modifies(f) {
      FramesAgain(Bytes(stored.body), FramesLeft(f, |was|));
    } else {
      assert was[..|was|] == was;
    }
  }
}
