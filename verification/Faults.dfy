/** The chaos overlay laid over a replay. */
module Faults {
  import opened Texts
  import opened Options
  import opened Cassettes
  import opened Frames
  import opened Replay
  import Records

  /** A positive status injects a failure of its own; otherwise the fault modifies the recorded
      response. An empty method or path applies to all, attempt 0 to every attempt. */
  datatype Fault = Fault(verb: string, path: string, attempt: int, status: int, retryAfter: string, body: string,
                         truncateAfter: Option<int>, dropTerminal: bool)
  {
    predicate Synthetic() { status > 0 }

    /** Method and path, whatever the attempt. */
    predicate Selects(v: string, p: string) {
      (verb != "" ==> Upper(verb) == Upper(v)) && (path != "" ==> HasSuffix(p, path))
    }

    predicate Matches(v: string, p: string, n: int) {
      Selects(v, p) && (attempt == 0 || attempt == n)
    }

    predicate Unbounded(v: string, p: string) {
      Synthetic() && attempt == 0 && Matches(v, p, 0)
    }
  }

  /** The first matching fault. */
  function FirstMatch(faults: seq<Fault>, verb: string, path: string, n: int): Option<Fault> {
    if faults == [] then None
    else if faults[0].Matches(verb, path, n) then Some(faults[0])
    else FirstMatch(faults[1..], verb, path, n)
  }

  method FindFault(faults: seq<Fault>, verb: string, path: string, n: int) returns (f: Option<Fault>)
    ensures f == FirstMatch(faults, verb, path, n)
  {
    var i := 0;
    while i < |faults|
      invariant 0 <= i <= |faults| && FirstMatch(faults, verb, path, n) == FirstMatch(faults[i..], verb, path, n)
    {
      assert faults[i..][1..] == faults[i + 1..];
      if faults[i].Matches(verb, path, n) { return Some(faults[i]); }
      i := i + 1;
    }
    return None;
  }

  /** Whether some unbounded synthetic fault covers a method and path. */
  predicate Shadows(faults: seq<Fault>, verb: string, path: string) {
    exists i | 0 <= i < |faults| :: faults[i].Unbounded(verb, path)
  }

  method ShadowsEveryAttempt(faults: seq<Fault>, verb: string, path: string) returns (r: bool)
    ensures r == Shadows(faults, verb, path)
  {
    var i := 0;
    while i < |faults|
      invariant 0 <= i <= |faults| && forall k | 0 <= k < i :: !faults[k].Unbounded(verb, path)
    {
      if faults[i].Synthetic() && faults[i].attempt == 0 && faults[i].Matches(verb, path, 0) { return true; }
      i := i + 1;
    }
    return false;
  }

  function DefaultBody(status: int): string {
    "{\"error\":{\"type\":\"injected_fault\",\"message\":\"synthetic " + Records.IntText(status) + "\"}}"
  }

  function SynthResponse(f: Fault): Response {
    var headers := [Header("Content-Type", ["application/json"])]
                 + if f.retryAfter != "" then [Header("Retry-After", [f.retryAfter])] else [];
    Response(f.status, headers, false, NewBody(if f.body == "" then DefaultBody(f.status) else f.body), "", [])
  }

  // ---------------------------------------------------------------- modifying a recorded response

  predicate Modifies(f: Fault) {
    f.status <= 0 && (f.truncateAfter.Some? || f.dropTerminal)
  }

  /** How many of n frames a fault leaves. */
  function FramesLeft(f: Fault, n: nat): (r: nat)
    ensures r <= n
  {
    var m := if f.truncateAfter.Some? && 0 <= f.truncateAfter.value < n then f.truncateAfter.value else n;
    if f.dropTerminal && m > 0 then m - 1 else m
  }

  function Modified(stored: Response, f: Fault): Response {
    if !Modifies(f) then stored
    else
      var frames := Split(Bytes(stored.body));
      stored.(body := NewBody(Join(frames[..FramesLeft(f, |frames|)])), timing := [])
  }

  function Altered(stored: Response, fault: Option<Fault>): Response {
    if fault.Some? then Modified(stored, fault.value) else stored
  }

  method ApplyModify(stored: Response, f: Fault) returns (out: Response)
    ensures out == Modified(stored, f)
  {
    if f.status > 0 || (f.truncateAfter.None? && !f.dropTerminal) { return stored; }
    var frames := SplitFrames(Bytes(stored.body));
    ghost var all := frames;
    if f.truncateAfter.Some? && f.truncateAfter.value >= 0 && f.truncateAfter.value < |frames| {
      frames := frames[..f.truncateAfter.value];
    }
    if f.dropTerminal && |frames| > 0 { frames := frames[..|frames| - 1]; }
    assert frames == all[..FramesLeft(f, |all|)];
    var b, i := "", 0;
    while i < |frames|
      invariant 0 <= i <= |frames| && b == Join(frames[..i])
    {
      assert frames[..i + 1] == frames[..i] + [frames[i]] && [frames[i]][1..] == [];
      JoinAppend(frames[..i], [frames[i]]);
      b := b + frames[i];
      i := i + 1;
    }
    assert frames[..|frames|] == frames;
    out := stored.(body := NewBody(b), timing := []);
  }

  /** The served body is a run of whole frames from the front of the recorded one, and nothing but body
      and timing differs. */
  ghost predicate Corruption(served: Response, stored: Response) {
    && served == stored.(body := served.body, timing := served.timing)
    && exists n | 0 <= n <= |Split(Bytes(stored.body))| :: Bytes(served.body) == Join(Split(Bytes(stored.body))[..n])
  }

  lemma ModifiedIsCorruption(stored: Response, f: Fault)
    ensures Corruption(Modified(stored, f), stored) && Bytes(Modified(stored, f).body) <= Bytes(stored.body)
  {
    var frames := Split(Bytes(stored.body));
    SplitExact(Bytes(stored.body));
    assert frames[..|frames|] == frames;
    FramesPrefix(Bytes(stored.body), FramesLeft(f, |frames|));
  }

  // ---------------------------------------------------------------- a lookup under faults

  datatype Call = Call(verb: string, path: string, key: string)

  function KeysCalled(calls: seq<Call>): (r: seq<string>)
    ensures |r| == |calls|
  {
    if calls == [] then [] else [calls[0].key] + KeysCalled(calls[1..])
  }

  datatype Outcome = Missed | Injected(fault: Fault) | Played(index: nat, response: Response) {
    /** What the recording was asked for, if it was asked at all. */
    function Index(): Option<nat> {
      if Played? then Some(index) else None
    }
  }

  datatype FaultState = FaultState(replay: State, attempts: map<string, nat>)

  const FRESH := FaultState(START, map[])

  function AttemptsOf(a: map<string, nat>, key: string): nat {
    if key in a then a[key] else 0
  }

  /** The fault a call meets, and the attempts counted with it. Without an overlay nothing is counted. */
  function FaultFor(faults: seq<Fault>, attempts: map<string, nat>, call: Call): (Option<Fault>, map<string, nat>) {
    if faults == [] then (None, attempts)
    else
      var n := AttemptsOf(attempts, call.key) + 1;
      (FirstMatch(faults, call.verb, call.path, n), attempts[call.key := n])
  }

  function Serve(faults: seq<Fault>, keys: Keys, items: seq<Response>, policy: Policy, st: FaultState, call: Call)
    : (Outcome, FaultState)
    requires |keys| == |items|
  {
    var due := FaultFor(faults, st.attempts, call);
    var fault := due.0;
    if fault.Some? && fault.value.Synthetic() then (Injected(fault.value), FaultState(st.replay, due.1))
    else
      var s := Lookup(keys, policy, st.replay, call.key);
      var next := FaultState(s.1, due.1);
      match s.0
      case None => (Missed, next)
      case Some(i) =>
        InRange(keys, policy, st.replay, call.key);
        (Played(i, Altered(items[i], fault)), next)
  }

  lemma InRange(keys: Keys, policy: Policy, st: State, key: string)
    ensures var a := Lookup(keys, policy, st, key).0; a.Some? ==> a.value < |keys| && keys[a.value] == Some(key)
  {
    GroupExact(keys, key);
  }

  datatype FaultTrace = FaultTrace(outcomes: seq<Outcome>, end: FaultState)

  function RunFaults(faults: seq<Fault>, keys: Keys, items: seq<Response>, policy: Policy, st: FaultState,
                     calls: seq<Call>): (t: FaultTrace)
    requires |keys| == |items|
    ensures |t.outcomes| == |calls|
    decreases |calls|
  {
    if calls == [] then FaultTrace([], st)
    else
      var s := Serve(faults, keys, items, policy, st, calls[0]);
      var t := RunFaults(faults, keys, items, policy, s.1, calls[1..]);
      FaultTrace([s.0] + t.outcomes, t.end)
  }

  // ---------------------------------------------------------------- erasing the faults

  /** The keys of the calls that got past the synthetic faults. */
  function Reaching(calls: seq<Call>, outcomes: seq<Outcome>): seq<string>
    requires |calls| == |outcomes|
  {
    if calls == [] then []
    else (if outcomes[0].Injected? then [] else [calls[0].key]) + Reaching(calls[1..], outcomes[1..])
  }

  function Answers(outcomes: seq<Outcome>): seq<Option<nat>> {
    if outcomes == [] then []
    else (if outcomes[0].Injected? then [] else [outcomes[0].Index()]) + Answers(outcomes[1..])
  }

  /** Fault erasure: with the injected failures deleted, what is left of any run is the run without
      faults, interaction for interaction, and it ends in the same replay state. */
  lemma {:induction false} FaultsErase(faults: seq<Fault>, keys: Keys, items: seq<Response>, policy: Policy,
                                       st: FaultState, calls: seq<Call>)
    requires |keys| == |items|
    ensures var t := RunFaults(faults, keys, items, policy, st, calls);
      var plain := Run(keys, policy, st.replay, Reaching(calls, t.outcomes));
      Answers(t.outcomes) == plain.answers && t.end.replay == plain.end
    decreases |calls|
  {
    if calls != [] {
      var s := Serve(faults, keys, items, policy, st, calls[0]);
      var t := RunFaults(faults, keys, items, policy, st, calls);
      assert t.outcomes[1..] == RunFaults(faults, keys, items, policy, s.1, calls[1..]).outcomes;
      FaultsErase(faults, keys, items, policy, s.1, calls[1..]);
      var rest := Reaching(calls[1..], t.outcomes[1..]);
      if s.0.Injected? {
        assert [] + rest == rest && [] + Answers(t.outcomes[1..]) == Answers(t.outcomes[1..]);
      } else {
        assert ([calls[0].key] + rest)[1..] == rest;
      }
    }
  }

  lemma ServedIsRecorded(faults: seq<Fault>, keys: Keys, items: seq<Response>, policy: Policy, st: FaultState, call: Call)
    requires |keys| == |items|
    ensures var o := Serve(faults, keys, items, policy, st, call).0;
      o.Played? ==> o.index < |items| && keys[o.index] == Some(call.key) && Corruption(o.response, items[o.index])
  {
    InRange(keys, policy, st.replay, call.key);
    var o := Serve(faults, keys, items, policy, st, call).0;
    if o.Played? {
      var stored := items[o.index];
      SplitExact(Bytes(stored.body));
      assert Split(Bytes(stored.body))[..|Split(Bytes(stored.body))|] == Split(Bytes(stored.body));
      var fault := FirstMatch(faults, call.verb, call.path, AttemptsOf(st.attempts, call.key) + 1);
      if fault.Some? { ModifiedIsCorruption(stored, fault.value); }
    }
  }

  /** Whatever is played under faults is the recorded response up to whole frames cut from its end. */
  lemma {:induction false} PlayedIsRecorded(faults: seq<Fault>, keys: Keys, items: seq<Response>, policy: Policy,
                                            st: FaultState, calls: seq<Call>, t: nat)
    requires |keys| == |items| && t < |calls|
    ensures var o := RunFaults(faults, keys, items, policy, st, calls).outcomes[t];
      o.Played? ==> o.index < |items| && keys[o.index] == Some(calls[t].key) && Corruption(o.response, items[o.index])
    decreases |calls|
  {
    if t == 0 {
      ServedIsRecorded(faults, keys, items, policy, st, calls[0]);
    } else {
      PlayedIsRecorded(faults, keys, items, policy, Serve(faults, keys, items, policy, st, calls[0]).1, calls[1..], t - 1);
    }
  }

  // ---------------------------------------------------------------- shadowing

  /** Before the first unbounded synthetic fault, whatever could modify an attempt comes after a
      synthetic fault for that very attempt; taken lists the attempts already failed. */
  predicate Sealed(faults: seq<Fault>, verb: string, path: string, taken: seq<int>)
    decreases |faults|
  {
    if faults == [] then false
    else
      var f, rest := faults[0], faults[1..];
      if f.Unbounded(verb, path) then true
      else if !f.Selects(verb, path) || f.attempt < 0 then Sealed(rest, verb, path, taken)
      else if f.attempt == 0 then false
      else if f.Synthetic() then Sealed(rest, verb, path, taken + [f.attempt])
      else f.attempt in taken && Sealed(rest, verb, path, taken)
  }

  predicate Injects(faults: seq<Fault>, verb: string, path: string, n: int) {
    var f := FirstMatch(faults, verb, path, n); f.Some? && f.value.Synthetic()
  }

  lemma {:induction false} SealedInjects(faults: seq<Fault>, verb: string, path: string, taken: seq<int>, n: int)
    requires Sealed(faults, verb, path, taken) && n >= 1 && n !in taken
    ensures Injects(faults, verb, path, n)
    decreases |faults|
  {
    var f := faults[0];
    if !f.Matches(verb, path, n) {
      var more := if f.Selects(verb, path) && f.attempt > 0 && f.Synthetic() then taken + [f.attempt] else taken;
      SealedInjects(faults[1..], verb, path, more, n);
    }
  }

  function Above(taken: seq<int>): (n: int)
    ensures n >= 1 && forall t <- taken :: t < n
  {
    if taken == [] then 1
    else
      assert taken == [taken[0]] + taken[1..];
      var m := Above(taken[1..]);
      if taken[0] < m then m else taken[0] + 1
  }

  /** An attempt that is not failed on purpose. */
  lemma {:induction false} WayThrough(faults: seq<Fault>, verb: string, path: string, taken: seq<int>) returns (n: int)
    requires !Sealed(faults, verb, path, taken)
    ensures n >= 1 && n !in taken && !Injects(faults, verb, path, n)
    decreases |faults|
  {
    n := Above(taken);
    if faults != [] {
      var f := faults[0];
      if f.Selects(verb, path) && f.attempt >= 0 {
        if f.attempt > 0 && f.Synthetic() {
          n := WayThrough(faults[1..], verb, path, taken + [f.attempt]);
          assert n !in taken;
        } else if f.attempt > 0 && f.attempt !in taken {
          n := f.attempt;
        } else if f.attempt > 0 {
          n := WayThrough(faults[1..], verb, path, taken);
        }
      } else {
        n := WayThrough(faults[1..], verb, path, taken);
      }
    }
  }

  /** Every attempt at a method and path is failed on purpose exactly when the overlay is sealed for
      it. Having an unbounded synthetic fault, all that is asked before a request is excused from
      verification, is not enough. */
  lemma InjectsEveryAttemptIff(faults: seq<Fault>, verb: string, path: string)
    ensures (forall n | n >= 1 :: Injects(faults, verb, path, n)) <==> Sealed(faults, verb, path, [])
    ensures Sealed(faults, verb, path, []) ==> Shadows(faults, verb, path)
  {
    if Sealed(faults, verb, path, []) {
      forall n | n >= 1 ensures Injects(faults, verb, path, n) { SealedInjects(faults, verb, path, [], n); }
      SealedShadows(faults, verb, path, []);
    } else {
      var n := WayThrough(faults, verb, path, []);
      assert !Injects(faults, verb, path, n);
    }
  }

  lemma {:induction false} SealedShadows(faults: seq<Fault>, verb: string, path: string, taken: seq<int>)
    requires Sealed(faults, verb, path, taken)
    ensures Shadows(faults, verb, path)
    decreases |faults|
  {
    var f, rest := faults[0], faults[1..];
    if f.Unbounded(verb, path) {
      assert faults[0].Unbounded(verb, path);
    } else {
      var more := if f.Selects(verb, path) && f.attempt > 0 && f.Synthetic() then taken + [f.attempt] else taken;
      SealedShadows(rest, verb, path, more);
      var i :| 0 <= i < |rest| && rest[i].Unbounded(verb, path);
      assert faults[i + 1] == rest[i];
    }
  }

  /** It suffices that every fault listed before the first unbounded synthetic one is synthetic too. */
  lemma {:induction false} AllSyntheticSeals(faults: seq<Fault>, verb: string, path: string, taken: seq<int>, i: nat)
    requires i < |faults| && faults[i].Unbounded(verb, path)
    requires forall k | 0 <= k < i :: faults[k].Selects(verb, path) ==> faults[k].Synthetic()
    ensures Sealed(faults, verb, path, taken)
    decreases |faults|
  {
    var f := faults[0];
    if !f.Unbounded(verb, path) {
      var more := if f.Selects(verb, path) && f.attempt > 0 then taken + [f.attempt] else taken;
      AllSyntheticSeals(faults[1..], verb, path, more, i - 1);
    }
  }

  /** A truncating fault listed first: the request counts as shadowed, yet every attempt at it plays
      the recording. */
  lemma ShadowedButPlayed(cut: Fault, fail: Fault, verb: string, path: string, n: int)
    requires cut == Fault("", "", 0, 0, "", "", Some(1), false) && fail == Fault("", "", 0, 429, "", "", None, false)
    ensures Shadows([cut, fail], verb, path) && !Injects([cut, fail], verb, path, n) && !Sealed([cut, fail], verb, path, [])
  {
    assert [cut, fail][1].Unbounded(verb, path);
  }

  /** Requests that take one key go by one path and, up to case, one method. */
  predicate OneRoute(calls: seq<Call>, key: string, verb: string, path: string) {
    forall i | 0 <= i < |calls| :: calls[i].key == key ==> Upper(calls[i].verb) == Upper(verb) && calls[i].path == path
  }

  lemma {:induction false} SameRouteSameFault(faults: seq<Fault>, v: string, w: string, path: string, n: int)
    requires Upper(v) == Upper(w)
    ensures FirstMatch(faults, v, path, n) == FirstMatch(faults, w, path, n)
  {
    if faults != [] { SameRouteSameFault(faults[1..], v, w, path, n); }
  }

  /** Behind a sealed overlay the recordings of a key are never served, in any run. */
  lemma {:induction false} SealedNeverServed(faults: seq<Fault>, keys: Keys, items: seq<Response>, policy: Policy,
                                             st: FaultState, calls: seq<Call>, key: string, verb: string, path: string)
    requires |keys| == |items| && Sealed(faults, verb, path, []) && OneRoute(calls, key, verb, path)
    ensures var t := RunFaults(faults, keys, items, policy, st, calls);
      forall i | 0 <= i < |calls| && calls[i].key == key :: t.outcomes[i].Injected?
    decreases |calls|
  {
    if calls != [] {
      var s := Serve(faults, keys, items, policy, st, calls[0]);
      SealedNeverServed(faults, keys, items, policy, s.1, calls[1..], key, verb, path);
      if calls[0].key == key {
        var n := AttemptsOf(st.attempts, key) + 1;
        SameRouteSameFault(faults, calls[0].verb, verb, path, n);
        SealedInjects(faults, verb, path, [], n);
      }
    }
  }
}
