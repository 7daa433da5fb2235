/** Branch mode: a recorded prefix and a live tail. */
module Branch {
  import opened Lists
  import opened Options
  import opened Replay

  /** What the live side does with a request: it cannot be reached; it answers; or its answer is recorded,
      but breaks off before the client has it. */
  datatype Live<+R> = Unreachable | Answered(response: R) | Broken(response: R)

  datatype LiveCall<+R> = LiveCall(key: string, live: Live<R>)

  /** The recording as it grows, with the key and the response of each interaction. */
  datatype Grown<+R> = Grown(replay: State, keys: Keys, responses: seq<R>)

  predicate Sound<R>(seed: Keys, g: Grown<R>) {
    seed <= g.keys && |g.keys| == |g.responses|
  }

  lemma GroupInside(keys: Keys, policy: Policy, st: State, key: string)
    ensures var a := Lookup(keys, policy, st, key).0; a.Some? ==> a.value < |keys|
  {
    GroupExact(keys, key);
  }

  /** What the client gets, and the place in the recording it comes from or went to. */
  datatype Outcome<+R> = Served(index: nat, response: R) | Recorded(index: nat, response: R) | Broke(index: nat) | Failed

  function Appended<R>(g: Grown<R>, key: string, r: R): Grown<R> {
    g.(keys := g.keys + [Some(key)], responses := g.responses + [r])
  }

  /** One request: looked up in the seed only, whatever was appended since. A failed dial leaves no
      trace; an answer that breaks off does. */
  function Branched<R>(seed: Keys, policy: Policy, g: Grown<R>, call: LiveCall<R>): (r: (Outcome<R>, Grown<R>))
    requires Sound(seed, g)
    ensures Sound(seed, r.1)
  {
    var s := Lookup(seed, policy, g.replay, call.key);
    match s.0
    case Some(i) => GroupInside(seed, policy, g.replay, call.key); (Served(i, g.responses[i]), g.(replay := s.1))
    case None =>
      match call.live
      case Unreachable => (Failed, g)
      case Answered(r) => (Recorded(|g.keys|, r), Appended(g, call.key, r))
      case Broken(r) => (Broke(|g.keys|), Appended(g, call.key, r))
  }

  datatype BranchTrace<+R> = BranchTrace(outcomes: seq<Outcome<R>>, end: Grown<R>)

  function BranchRun<R>(seed: Keys, policy: Policy, g: Grown<R>, calls: seq<LiveCall<R>>): (t: BranchTrace<R>)
    requires Sound(seed, g)
    ensures |t.outcomes| == |calls| && Sound(seed, t.end)
    decreases |calls|
  {
    if calls == [] then BranchTrace([], g)
    else
      var s := Branched(seed, policy, g, calls[0]);
      var t := BranchRun(seed, policy, s.1, calls[1..]);
      BranchTrace([s.0] + t.outcomes, t.end)
  }

  /** A response that was got: its key, its place, and whether no broken answer of the key came before. */
  datatype Get<+R> = Get(key: string, index: nat, response: R, clean: bool)

  /** The responses that were got, in order; lost counts the broken answers of each key so far. */
  function Gets<R>(calls: seq<LiveCall<R>>, outcomes: seq<Outcome<R>>, lost: multiset<string>): seq<Get<R>>
    requires |calls| == |outcomes|
  {
    if calls == [] then []
    else
      var key := calls[0].key;
      match outcomes[0]
      case Served(i, r) => [Get(key, i, r, lost[key] == 0)] + Gets(calls[1..], outcomes[1..], lost)
      case Recorded(i, r) => [Get(key, i, r, lost[key] == 0)] + Gets(calls[1..], outcomes[1..], lost)
      case Broke(_) => Gets(calls[1..], outcomes[1..], lost + multiset{key})
      case Failed => Gets(calls[1..], outcomes[1..], lost)
  }

  function Requests<R>(gets: seq<Get<R>>): (r: seq<string>)
    ensures |r| == |gets|
  {
    if gets == [] then [] else [gets[0].key] + Requests(gets[1..])
  }

  function Responses<R>(gets: seq<Get<R>>): (r: seq<R>)
    ensures |r| == |gets|
  {
    if gets == [] then [] else [gets[0].response] + Responses(gets[1..])
  }

  /** The recording only grows at its end. */
  lemma {:induction false} OnlyGrows<R>(seed: Keys, policy: Policy, g: Grown<R>, calls: seq<LiveCall<R>>)
    requires Sound(seed, g)
    ensures var e := BranchRun(seed, policy, g, calls).end; g.keys <= e.keys && g.responses <= e.responses
    decreases |calls|
  {
    if calls != [] { OnlyGrows(seed, policy, Branched(seed, policy, g, calls[0]).1, calls[1..]); }
  }

  lemma GroupSnoc(keys: Keys, key: string, other: string)
    ensures Group(keys + [Some(key)], other) == Group(keys, other) + if key == other then [|keys|] else []
  {
    assert (keys + [Some(key)])[..|keys|] == keys;
  }

  /** Under a policy that never misses a recorded key, such a key is never recorded again. */
  lemma {:induction false} NeverAgain<R>(seed: Keys, policy: Policy, g: Grown<R>, calls: seq<LiveCall<R>>, key: string)
    requires Sound(seed, g) && !policy.Fail? && Group(seed, key) != []
    ensures Group(BranchRun(seed, policy, g, calls).end.keys, key) == Group(g.keys, key)
    decreases |calls|
  {
    if calls != [] {
      var s := Branched(seed, policy, g, calls[0]);
      NeverAgain(seed, policy, s.1, calls[1..], key);
      GroupSnoc(g.keys, calls[0].key, key);
    }
  }

  // ---------------------------------------------------------------- the branch and its replay, side by side

  /** Per key: the replay of the finished recording is ahead of the branch by what was appended so far and
      not lost, and nothing is appended to a key before its recorded entries are used up. */
  predicate InStep(seed: Keys, policy: Policy, cursor: Cursors, keys: Keys, replay: Cursors,
                   lost: multiset<string>, key: string) {
    var was, now := |Group(seed, key)|, |Group(keys, key)|;
    && was + lost[key] <= now
    && CursorOf(replay, key) + lost[key] == CursorOf(cursor, key) + now - was
    && (was < now ==> CursorOf(cursor, key) == was && (policy.Fail? || was == 0))
    && (policy.Fail? || was == 0 ==> CursorOf(cursor, key) <= was)
  }

  ghost predicate AllInStep(seed: Keys, policy: Policy, cursor: Cursors, keys: Keys, replay: Cursors, lost: multiset<string>) {
    forall key :: InStep(seed, policy, cursor, keys, replay, lost, key)
  }

  /** What the finished recording knows of a key: all that is recorded so far, and nothing more when
      the policy never misses it. */
  ghost predicate Finishes(seed: Keys, policy: Policy, keys: Keys, final: Keys) {
    && keys <= final
    && forall key :: !policy.Fail? && Group(seed, key) != [] ==> Group(final, key) == Group(seed, key)
  }

  predicate Agrees(policy: Policy, again: Policy) {
    policy == again || policy.Fail?
  }

  lemma PrefixGroups(seed: Keys, keys: Keys, key: string)
    requires seed <= keys
    ensures Group(seed, key) <= Group(keys, key)
  {
    assert keys[..|seed|] == seed;
    GroupPrefix(keys, |seed|, key);
  }

  /** A hit is a hit in the replay, and no answer of its key was lost. */
  lemma HitInStep(seed: Keys, policy: Policy, again: Policy, st: State, keys: Keys, final: Keys, rt: State,
                  lost: multiset<string>, key: string)
    requires seed <= keys && Finishes(seed, policy, keys, final) && Agrees(policy, again)
    requires AllInStep(seed, policy, st.cursor, keys, rt.cursor, lost) && Lookup(seed, policy, st, key).0.Some?
    ensures Lookup(final, again, rt, key).0 == Lookup(seed, policy, st, key).0 && lost[key] == 0
    ensures AllInStep(seed, policy, Lookup(seed, policy, st, key).1.cursor, keys, Lookup(final, again, rt, key).1.cursor, lost)
  {
    PrefixGroups(seed, keys, key);
    PrefixGroups(keys, final, key);
    assert InStep(seed, policy, st.cursor, keys, rt.cursor, lost, key);
    var s, r := Lookup(seed, policy, st, key), Lookup(final, again, rt, key);
    assert !policy.Fail? ==> Group(final, key) == Group(seed, key);
    assert r.0 == s.0;
    forall other ensures InStep(seed, policy, s.1.cursor, keys, r.1.cursor, lost, other) {
      assert InStep(seed, policy, st.cursor, keys, rt.cursor, lost, other);
    }
  }

  lemma GroupAscends(keys: Keys, key: string, i: nat, j: nat)
    requires i <= j < |Group(keys, key)|
    ensures Group(keys, key)[i] == Group(keys, key)[j] <==> i == j
  {
    GroupExact(keys, key);
  }

  /** A miss that is answered: the replay finds what was recorded for it exactly when no answer of the key
      was lost before, and something in any case. */
  lemma MissInStep(seed: Keys, policy: Policy, again: Policy, st: State, keys: Keys, final: Keys, rt: State,
                   lost: multiset<string>, key: string)
    requires seed <= keys && keys + [Some(key)] <= final && Agrees(policy, again)
    requires AllInStep(seed, policy, st.cursor, keys, rt.cursor, lost) && Lookup(seed, policy, st, key).0.None?
    ensures var r := Lookup(final, again, rt, key).0; r.Some? && (r.value == |keys| <==> lost[key] == 0)
    ensures AllInStep(seed, policy, st.cursor, keys + [Some(key)], Lookup(final, again, rt, key).1.cursor, lost)
  {
    var grown := keys + [Some(key)];
    PrefixGroups(seed, keys, key);
    PrefixGroups(grown, final, key);
    GroupSnoc(keys, key, key);
    assert InStep(seed, policy, st.cursor, keys, rt.cursor, lost, key);
    var r := Lookup(final, again, rt, key);
    var now := |Group(keys, key)|;
    assert CursorOf(rt.cursor, key) == now - lost[key];
    assert Group(final, key)[now] == |keys|;
    GroupAscends(final, key, now - lost[key], now);
    forall other ensures InStep(seed, policy, st.cursor, grown, r.1.cursor, lost, other) {
      assert InStep(seed, policy, st.cursor, keys, rt.cursor, lost, other);
      GroupSnoc(keys, key, other);
      PrefixGroups(seed, keys, other);
    }
  }

  /** A miss whose answer breaks off moves the branch, and not the replay. */
  lemma BrokenInStep(seed: Keys, policy: Policy, st: State, keys: Keys, rt: State, lost: multiset<string>, key: string)
    requires seed <= keys && AllInStep(seed, policy, st.cursor, keys, rt.cursor, lost) && Lookup(seed, policy, st, key).0.None?
    ensures AllInStep(seed, policy, st.cursor, keys + [Some(key)], rt.cursor, lost + multiset{key})
  {
    assert InStep(seed, policy, st.cursor, keys, rt.cursor, lost, key);
    forall other ensures InStep(seed, policy, st.cursor, keys + [Some(key)], rt.cursor, lost + multiset{key}, other) {
      assert InStep(seed, policy, st.cursor, keys, rt.cursor, lost, other);
      GroupSnoc(keys, key, other);
      PrefixGroups(seed, keys, other);
    }
  }

  /** The replay answers each request; with the interaction its response came from or went to exactly when
      no broken answer of the key came before. */
  ghost predicate ReplaysGets<R>(final: seq<R>, answers: seq<Option<nat>>, gets: seq<Get<R>>) {
    && |answers| == |gets|
    && forall i | 0 <= i < |gets| ::
      && gets[i].index < |final| && final[gets[i].index] == gets[i].response
      && answers[i].Some? && (answers[i].value == gets[i].index <==> gets[i].clean)
  }

  lemma ReplaysOne<R>(final: seq<R>, a: Option<nat>, get: Get<R>, answers: seq<Option<nat>>, gets: seq<Get<R>>)
    requires get.index < |final| && final[get.index] == get.response && ReplaysGets(final, answers, gets)
    requires a.Some? && (a.value == get.index <==> get.clean)
    ensures ReplaysGets(final, [a] + answers, [get] + gets)
  {
  }

  lemma RunFirst<R>(keys: Keys, policy: Policy, st: State, get: Get<R>, rest: seq<Get<R>>)
    ensures var s := Lookup(keys, policy, st, get.key);
      Run(keys, policy, st, Requests([get] + rest)).answers == [s.0] + Run(keys, policy, s.1, Requests(rest)).answers
  {
    assert ([get] + rest)[1..] == rest && Requests([get] + rest)[1..] == Requests(rest);
  }

  /** One request that is answered, and the same request replayed. */
  lemma GetInStep<R>(seed: Keys, policy: Policy, again: Policy, g: Grown<R>, rt: State, call: LiveCall<R>,
                     lost: multiset<string>, final: Keys)
    requires Sound(seed, g) && Agrees(policy, again) && AllInStep(seed, policy, g.replay.cursor, g.keys, rt.cursor, lost)
    requires Finishes(seed, policy, g.keys, final) && Branched(seed, policy, g, call).1.keys <= final
    requires var o := Branched(seed, policy, g, call).0; o.Served? || o.Recorded?
    ensures var s := Branched(seed, policy, g, call); var r := Lookup(final, again, rt, call.key);
      && s.0.index < |s.1.responses| && s.1.responses[s.0.index] == s.0.response
      && r.0.Some? && (r.0.value == s.0.index <==> lost[call.key] == 0)
      && AllInStep(seed, policy, s.1.replay.cursor, s.1.keys, r.1.cursor, lost)
  {
    if Lookup(seed, policy, g.replay, call.key).0.Some? {
      HitInStep(seed, policy, again, g.replay, g.keys, final, rt, lost, call.key);
      GroupInside(seed, policy, g.replay, call.key);
    } else {
      MissInStep(seed, policy, again, g.replay, g.keys, final, rt, lost, call.key);
    }
  }

  lemma GetsFirst<R>(calls: seq<LiveCall<R>>, outcomes: seq<Outcome<R>>, lost: multiset<string>)
    requires |calls| == |outcomes| && calls != [] && (outcomes[0].Served? || outcomes[0].Recorded?)
    ensures Gets(calls, outcomes, lost)
         == [Get(calls[0].key, outcomes[0].index, outcomes[0].response, lost[calls[0].key] == 0)]
          + Gets(calls[1..], outcomes[1..], lost)
  {
  }

  lemma {:induction false} BranchReplays<R>(seed: Keys, policy: Policy, again: Policy, g: Grown<R>, rt: State,
                                            calls: seq<LiveCall<R>>, lost: multiset<string>)
    requires Sound(seed, g) && Agrees(policy, again) && AllInStep(seed, policy, g.replay.cursor, g.keys, rt.cursor, lost)
    requires Finishes(seed, policy, g.keys, BranchRun(seed, policy, g, calls).end.keys)
    ensures var t := BranchRun(seed, policy, g, calls); var gets := Gets(calls, t.outcomes, lost);
      ReplaysGets(t.end.responses, Run(t.end.keys, again, rt, Requests(gets)).answers, gets)
    decreases |calls|
  {
    if calls != [] {
      var call := calls[0];
      var t := BranchRun(seed, policy, g, calls);
      var s := Branched(seed, policy, g, call);
      var rest := BranchRun(seed, policy, s.1, calls[1..]);
      assert t.outcomes[1..] == rest.outcomes && t.end == rest.end;
      OnlyGrows(seed, policy, s.1, calls[1..]);
      match s.0
      case Failed => BranchReplays(seed, policy, again, s.1, rt, calls[1..], lost);
      case Broke(_) =>
        BrokenInStep(seed, policy, g.replay, g.keys, rt, lost, call.key);
        BranchReplays(seed, policy, again, s.1, rt, calls[1..], lost + multiset{call.key});
      case _ =>
        GetInStep(seed, policy, again, g, rt, call, lost, t.end.keys);
        BranchReplays(seed, policy, again, s.1, Lookup(t.end.keys, again, rt, call.key).1, calls[1..], lost);
        GetsFirst(calls, t.outcomes, lost);
        GetReplays(t.end, again, rt, Get(call.key, s.0.index, s.0.response, lost[call.key] == 0),
                   Gets(calls[1..], rest.outcomes, lost));
    }
  }

  lemma GetReplays<R>(end: Grown<R>, again: Policy, rt: State, get: Get<R>, rest: seq<Get<R>>)
    requires get.index < |end.responses| && end.responses[get.index] == get.response
    requires var r := Lookup(end.keys, again, rt, get.key); r.0.Some? && (r.0.value == get.index <==> get.clean)
    requires ReplaysGets(end.responses, Run(end.keys, again, Lookup(end.keys, again, rt, get.key).1, Requests(rest)).answers,
                         rest)
    ensures ReplaysGets(end.responses, Run(end.keys, again, rt, Requests([get] + rest)).answers, [get] + rest)
  {
    var r := Lookup(end.keys, again, rt, get.key);
    RunFirst(end.keys, again, rt, get, rest);
    ReplaysOne(end.responses, r.0, get, Run(end.keys, again, r.1, Requests(rest)).answers, rest);
  }

  /** Record and replay: open the grown recording for replay under the same policy (or any, when
      over-consumption failed), and issue again the requests that got a response. Each is answered, with
      the interaction its response came from or went to exactly when no broken answer of its key was
      recorded before. */
  lemma BranchThenReplay<R>(seed: Keys, responses: seq<R>, policy: Policy, again: Policy, calls: seq<LiveCall<R>>)
    requires |seed| == |responses| && Agrees(policy, again)
    ensures var t := BranchRun(seed, policy, Grown(START, seed, responses), calls);
      var gets := Gets(calls, t.outcomes, multiset{});
      && t.end.keys[..|seed|] == seed && t.end.responses[..|seed|] == responses
      && ReplaysGets(t.end.responses, Run(t.end.keys, again, START, Requests(gets)).answers, gets)
  {
    var g := Grown(START, seed, responses);
    var t := BranchRun(seed, policy, g, calls);
    OnlyGrows(seed, policy, g, calls);
    forall key ensures InStep(seed, policy, START.cursor, seed, START.cursor, multiset{}, key) { }
    forall key | !policy.Fail? && Group(seed, key) != [] ensures Group(t.end.keys, key) == Group(seed, key) {
      NeverAgain(seed, policy, g, calls, key);
    }
    BranchReplays(seed, policy, again, g, START, calls, multiset{});
  }

  // ---------------------------------------------------------------- told from the calls

  function CallKeys<R>(calls: seq<LiveCall<R>>): (r: seq<string>)
    ensures |r| == |calls| && forall i | 0 <= i < |calls| :: r[i] == calls[i].key
  {
    if calls == [] then [] else [calls[0].key] + CallKeys(calls[1..])
  }

  /** What the recording answers to the i-th call after earlier ones. */
  function SeedAnswer<R>(seed: Keys, policy: Policy, history: seq<string>, calls: seq<LiveCall<R>>, i: nat): Option<nat>
    requires i < |calls|
  {
    Answer(Group(seed, calls[i].key), Times(history + CallKeys(calls)[..i], calls[i].key), policy)
  }

  predicate OutcomeFits<R>(o: Outcome<R>, answer: Option<nat>, live: Live<R>) {
    match answer
    case Some(i) => o.Served? && o.index == i
    case None => (o.Recorded? <==> live.Answered?) && (o.Broke? <==> live.Broken?) && !o.Served?
  }

  lemma OutcomeFirst<R>(seed: Keys, policy: Policy, g: Grown<R>, history: seq<string>, call: LiveCall<R>)
    requires Sound(seed, g) && Counted(seed, policy, g.replay.cursor, history)
    ensures var s := Branched(seed, policy, g, call);
      && OutcomeFits(s.0, Answer(Group(seed, call.key), Times(history, call.key), policy), call.live)
      && Counted(seed, policy, s.1.replay.cursor, history + [call.key])
  {
    LookupCounted(seed, policy, g.replay, history, call.key);
  }

  lemma {:induction false} OutcomeIs<R>(seed: Keys, policy: Policy, g: Grown<R>, history: seq<string>,
                                       calls: seq<LiveCall<R>>, i: nat)
    requires Sound(seed, g) && Counted(seed, policy, g.replay.cursor, history) && i < |calls|
    ensures OutcomeFits(BranchRun(seed, policy, g, calls).outcomes[i], SeedAnswer(seed, policy, history, calls, i),
                        calls[i].live)
    decreases |calls|
  {
    OutcomeFirst(seed, policy, g, history, calls[0]);
    HistoryMoves(history, CallKeys(calls), i);
    if i > 0 {
      assert CallKeys(calls)[1..] == CallKeys(calls[1..]);
      OutcomeIs(seed, policy, Branched(seed, policy, g, calls[0]).1, history + [calls[0].key], calls[1..], i - 1);
    }
  }

  predicate IsGot<R>(o: Outcome<R>) { o.Served? || o.Recorded? }

  predicate AllClean<R>(gets: seq<Get<R>>) {
    forall i | 0 <= i < |gets| :: gets[i].clean
  }

  predicate LostBefore<R>(calls: seq<LiveCall<R>>, outcomes: seq<Outcome<R>>, lost: multiset<string>, j: nat)
    requires |calls| == |outcomes| && j < |calls|
  {
    calls[j].key in lost || exists i | 0 <= i < j :: outcomes[i].Broke? && calls[i].key == calls[j].key
  }

  lemma LostNext<R>(calls: seq<LiveCall<R>>, outcomes: seq<Outcome<R>>, lost: multiset<string>, j: nat)
    requires |calls| == |outcomes| && 0 < j < |calls|
    ensures LostBefore(calls, outcomes, lost, j)
      <==> LostBefore(calls[1..], outcomes[1..], if outcomes[0].Broke? then lost + multiset{calls[0].key} else lost, j - 1)
  {
    var next := if outcomes[0].Broke? then lost + multiset{calls[0].key} else lost;
    if LostBefore(calls, outcomes, lost, j) && calls[j].key !in lost {
      var i :| 0 <= i < j && outcomes[i].Broke? && calls[i].key == calls[j].key;
      if i > 0 { assert outcomes[1..][i - 1].Broke? && calls[1..][i - 1].key == calls[1..][j - 1].key; }
    }
    if LostBefore(calls[1..], outcomes[1..], next, j - 1) && calls[j].key !in next {
      var i :| 0 <= i < j - 1 && outcomes[1..][i].Broke? && calls[1..][i].key == calls[1..][j - 1].key;
      assert outcomes[i + 1].Broke? && calls[i + 1].key == calls[j].key;
    }
  }

  lemma {:induction false} CleanIff<R>(calls: seq<LiveCall<R>>, outcomes: seq<Outcome<R>>, lost: multiset<string>)
    requires |calls| == |outcomes|
    ensures AllClean(Gets(calls, outcomes, lost))
      <==> forall j | 0 <= j < |calls| && IsGot(outcomes[j]) :: !LostBefore(calls, outcomes, lost, j)
    decreases |calls|
  {
    if calls != [] {
      var next := if outcomes[0].Broke? then lost + multiset{calls[0].key} else lost;
      CleanIff(calls[1..], outcomes[1..], next);
      forall j | 0 < j < |calls|
        ensures LostBefore(calls, outcomes, lost, j) <==> LostBefore(calls[1..], outcomes[1..], next, j - 1)
      {
        LostNext(calls, outcomes, lost, j);
      }
      CleanSplit(calls, outcomes, lost, next);
    }
  }

  lemma CleanSplit<R>(calls: seq<LiveCall<R>>, outcomes: seq<Outcome<R>>, lost: multiset<string>, next: multiset<string>)
    requires |calls| == |outcomes| && calls != []
    requires next == if outcomes[0].Broke? then lost + multiset{calls[0].key} else lost
    ensures AllClean(Gets(calls, outcomes, lost))
      <==> (IsGot(outcomes[0]) ==> lost[calls[0].key] == 0) && AllClean(Gets(calls[1..], outcomes[1..], next))
  {
    if IsGot(outcomes[0]) {
      var get := Get(calls[0].key, outcomes[0].index, outcomes[0].response, lost[calls[0].key] == 0);
      CleanFirst(get, Gets(calls[1..], outcomes[1..], next));
    }
  }

  lemma CleanFirst<R>(get: Get<R>, rest: seq<Get<R>>)
    ensures AllClean([get] + rest) <==> get.clean && AllClean(rest)
  {
    var all := [get] + rest;
    assert all[0] == get && forall i | 0 <= i < |rest| :: all[i + 1] == rest[i];
    assert forall i | 0 < i < |all| :: all[i] == rest[i - 1];
  }

  /** The i-th call of a run goes to the live side. */
  predicate Misses<R>(seed: Keys, policy: Policy, calls: seq<LiveCall<R>>, i: nat)
    requires i < |calls|
  {
    Answer(Group(seed, calls[i].key), Times(CallKeys(calls)[..i], calls[i].key), policy).None?
  }

  /** No missed call whose answer breaks off is followed by an answered one of its key. */
  predicate NoneLost<R>(seed: Keys, policy: Policy, calls: seq<LiveCall<R>>) {
    forall i, j | 0 <= i < j < |calls| && calls[i].key == calls[j].key && Misses(seed, policy, calls, i) ::
      calls[i].live.Broken? ==> !calls[j].live.Answered?
  }

  lemma MissesOn<R>(seed: Keys, policy: Policy, calls: seq<LiveCall<R>>, i: nat, j: nat)
    requires i < j < |calls| && calls[i].key == calls[j].key && Misses(seed, policy, calls, i)
    ensures Misses(seed, policy, calls, j)
  {
    TimesGrow(CallKeys(calls), i, j, calls[i].key);
  }

  lemma NoneLostClean<R>(seed: Keys, responses: seq<R>, policy: Policy, calls: seq<LiveCall<R>>)
    requires |seed| == |responses|
    ensures var t := BranchRun(seed, policy, Grown(START, seed, responses), calls);
      AllClean(Gets(calls, t.outcomes, multiset{})) <==> NoneLost(seed, policy, calls)
  {
    var g := Grown(START, seed, responses);
    var t := BranchRun(seed, policy, g, calls);
    CleanIff(calls, t.outcomes, multiset{});
    forall i | 0 <= i < |calls|
      ensures t.outcomes[i].Broke? <==> Misses(seed, policy, calls, i) && calls[i].live.Broken?
      ensures IsGot(t.outcomes[i]) <==> !Misses(seed, policy, calls, i) || calls[i].live.Answered?
    {
      OutcomeIs(seed, policy, g, [], calls, i);
      assert [] + CallKeys(calls)[..i] == CallKeys(calls)[..i];
    }
    NoneLostIff(seed, policy, calls, t.outcomes);
  }

  lemma NoneLostIff<R>(seed: Keys, policy: Policy, calls: seq<LiveCall<R>>, outcomes: seq<Outcome<R>>)
    requires |calls| == |outcomes|
    requires forall i | 0 <= i < |calls| ::
      && (outcomes[i].Broke? <==> Misses(seed, policy, calls, i) && calls[i].live.Broken?)
      && (IsGot(outcomes[i]) <==> !Misses(seed, policy, calls, i) || calls[i].live.Answered?)
    ensures NoneLost(seed, policy, calls)
      <==> forall j | 0 <= j < |calls| && IsGot(outcomes[j]) :: !LostBefore(calls, outcomes, multiset{}, j)
  {
    if NoneLost(seed, policy, calls) {
      forall j | 0 <= j < |calls| && IsGot(outcomes[j]) ensures !LostBefore(calls, outcomes, multiset{}, j) {
        if LostBefore(calls, outcomes, multiset{}, j) {
          var i :| 0 <= i < j && outcomes[i].Broke? && calls[i].key == calls[j].key;
          MissesOn(seed, policy, calls, i, j);
        }
      }
    }
    if forall j | 0 <= j < |calls| && IsGot(outcomes[j]) :: !LostBefore(calls, outcomes, multiset{}, j) {
      forall i, j | 0 <= i < j < |calls| && calls[i].key == calls[j].key && Misses(seed, policy, calls, i)
        ensures calls[i].live.Broken? ==> !calls[j].live.Answered?
      {
        if calls[i].live.Broken? {
          assert outcomes[i].Broke?;
          assert LostBefore(calls, outcomes, multiset{}, j);
        }
      }
    }
  }

  /** What the replay of the answered requests finds: for each, the interaction its response came from or
      went to. */
  predicate SameInteractions<R>(answers: seq<Option<nat>>, gets: seq<Get<R>>) {
    |answers| == |gets| && forall i | 0 <= i < |gets| :: answers[i] == Some(gets[i].index)
  }

  predicate ReplayAgrees<R>(seed: Keys, responses: seq<R>, policy: Policy, again: Policy, calls: seq<LiveCall<R>>)
    requires |seed| == |responses|
  {
    var t := BranchRun(seed, policy, Grown(START, seed, responses), calls);
    var gets := Gets(calls, t.outcomes, multiset{});
    SameInteractions(Run(t.end.keys, again, START, Requests(gets)).answers, gets)
  }

  /** Record and replay agree on a run exactly when no broken answer of a key is followed by an answered
      one. */
  lemma ReplayAgreesIff<R>(seed: Keys, responses: seq<R>, policy: Policy, again: Policy, calls: seq<LiveCall<R>>)
    requires |seed| == |responses| && Agrees(policy, again)
    ensures ReplayAgrees(seed, responses, policy, again, calls) <==> NoneLost(seed, policy, calls)
  {
    BranchThenReplay(seed, responses, policy, again, calls);
    NoneLostClean(seed, responses, policy, calls);
  }

  /** Each answer names an interaction of the finished recording that holds the response got. */
  ghost predicate Replays<R>(final: seq<R>, answers: seq<Option<nat>>, got: seq<R>) {
    && |answers| == |got|
    && forall i | 0 <= i < |answers| :: answers[i].Some? && answers[i].value < |final| && final[answers[i].value] == got[i]
  }

  /** Then every request that got a response gets that response from the saved recording, scrubbed. */
  lemma AgreedResponses<R>(final: seq<R>, answers: seq<Option<nat>>, gets: seq<Get<R>>, scrub: R -> R)
    requires ReplaysGets(final, answers, gets) && SameInteractions(answers, gets)
    ensures Replays(MapSeq(scrub, final), answers, MapSeq(scrub, Responses(gets)))
  {
    forall i | 0 <= i < |answers|
      ensures answers[i].value < |final| && MapSeq(scrub, final)[answers[i].value] == MapSeq(scrub, Responses(gets))[i]
    {
      MapSeqAt(scrub, final, answers[i].value);
      MapSeqAt(scrub, Responses(gets), i);
      ResponseAt(gets, i);
    }
  }

  lemma {:induction false} ResponseAt<R>(gets: seq<Get<R>>, i: nat)
    requires i < |gets|
    ensures Responses(gets)[i] == gets[i].response && Requests(gets)[i] == gets[i].key
  {
    if i > 0 { ResponseAt(gets[1..], i - 1); }
  }

  /** With every dial answered, every request got a response, so the whole run can be issued again, and
      nothing is lost. */
  lemma {:induction false} AllAnswered<R>(seed: Keys, policy: Policy, g: Grown<R>, calls: seq<LiveCall<R>>,
                                         lost: multiset<string>)
    requires Sound(seed, g) && forall i | 0 <= i < |calls| :: calls[i].live.Answered?
    ensures Requests(Gets(calls, BranchRun(seed, policy, g, calls).outcomes, lost)) == CallKeys(calls)
    ensures NoneLost(seed, policy, calls)
    decreases |calls|
  {
    if calls != [] {
      var s := Branched(seed, policy, g, calls[0]);
      AllAnswered(seed, policy, s.1, calls[1..], lost);
      var t := BranchRun(seed, policy, g, calls);
      assert t.outcomes[1..] == BranchRun(seed, policy, s.1, calls[1..]).outcomes;
      var rest := Gets(calls[1..], t.outcomes[1..], lost);
      var get := Get(calls[0].key, s.0.index, s.0.response, lost[calls[0].key] == 0);
      assert ([get] + rest)[1..] == rest;
    }
  }

  /** An answer that broke off, and then one that did not: the client got the second, and the replay
      serves it the first. */
  lemma BrokenFirst<R>(key: string, x: R, y: R)
    ensures var calls := [LiveCall(key, Broken(x)), LiveCall(key, Answered(y))];
      var t := BranchRun([], Fail, Grown(START, [], []), calls);
      var gets := Gets(calls, t.outcomes, multiset{});
      && Requests(gets) == [key] && Responses(gets) == [y] && t.end.responses == [x, y]
      && Run(t.end.keys, Fail, START, [key]).answers == [Some(0)]
  {
    var c, d := LiveCall(key, Broken(x)), LiveCall(key, Answered(y));
    BrokenRun(c, d, x, y);
    GetsBroken(c, d, y);
    AskedOnce(key);
    assert [key][1..] == [];
  }

  lemma BrokenRun<R>(c: LiveCall<R>, d: LiveCall<R>, x: R, y: R)
    requires c.key == d.key && c.live == Broken(x) && d.live == Answered(y)
    ensures BranchRun([], Fail, Grown(START, [], []), [c, d])
         == BranchTrace([Broke(0), Recorded(1, y)], Grown(START, [Some(c.key), Some(c.key)], [x, y]))
  {
    var g := Grown(START, [], []);
    var h := Appended(g, c.key, x);
    RunTwo([], Fail, g, c, d);
    assert Branched([], Fail, g, c) == (Broke(0), h);
    assert Branched([], Fail, h, d) == (Recorded(1, y), Appended(h, d.key, y));
  }

  lemma AskedOnce(key: string)
    ensures Run([Some(key), Some(key)], Fail, START, [key]).answers == [Some(0)]
  {
    TwoEntries(key);
    assert [key][..0] == [];
    OrderedReplay([Some(key), Some(key)], Fail, [key], 0);
  }

  lemma RunTwo<R>(seed: Keys, policy: Policy, g: Grown<R>, c: LiveCall<R>, d: LiveCall<R>)
    requires Sound(seed, g)
    ensures var s := Branched(seed, policy, g, c); var t := Branched(seed, policy, s.1, d);
      BranchRun(seed, policy, g, [c, d]) == BranchTrace([s.0, t.0], t.1)
  {
    var s := Branched(seed, policy, g, c);
    var t := Branched(seed, policy, s.1, d);
    assert [c, d][1..] == [d] && [d][1..] == [];
    assert BranchRun(seed, policy, s.1, [d]) == BranchTrace([t.0], t.1);
  }

  lemma GetsBroken<R>(c: LiveCall<R>, d: LiveCall<R>, y: R)
    requires c.key == d.key
    ensures Gets([c, d], [Broke(0), Recorded(1, y)], multiset{}) == [Get(d.key, 1, y, false)]
  {
    var lost := multiset{} + multiset{c.key};
    var o := Recorded(1, y);
    assert [c, d][1..] == [d] && [d][1..] == [] && [Broke(0), o][1..] == [o] && [o][1..] == [];
    assert Gets([d], [o], lost) == [Get(d.key, 1, y, false)];
  }

  lemma TwoEntries(key: string)
    ensures Group([Some(key), Some(key)], key) == [0, 1]
  {
    var keys: Keys := [Some(key), Some(key)];
    assert keys[..1] == [Some(key)] && keys[..1][..0] == [];
    assert Group(keys[..1], key) == [0];
  }

  // ---------------------------------------------------------------- the policy has to be kept

  /** Whatever is recorded, replay under the second policy agrees with the branch under the first. */
  ghost predicate AlwaysAgrees<R(!new)>(policy: Policy, again: Policy) {
    forall seed: Keys, responses: seq<R>, calls: seq<LiveCall<R>> |
      |seed| == |responses| && NoneLost(seed, policy, calls) :: ReplayAgrees(seed, responses, policy, again, calls)
  }

  predicate AllServed<R>(outcomes: seq<Outcome<R>>) {
    forall i | 0 <= i < |outcomes| :: outcomes[i].Served?
  }

  lemma {:induction false} ServedGets<R>(calls: seq<LiveCall<R>>, outcomes: seq<Outcome<R>>, lost: multiset<string>)
    requires |calls| == |outcomes| && AllServed(outcomes)
    ensures var gets := Gets(calls, outcomes, lost);
      Requests(gets) == CallKeys(calls) && forall i | 0 <= i < |calls| :: gets[i].index == outcomes[i].index
    decreases |calls|
  {
    if calls != [] {
      ServedGets(calls[1..], outcomes[1..], lost);
      GetsFirst(calls, outcomes, lost);
      var get := Get(calls[0].key, outcomes[0].index, outcomes[0].response, lost[calls[0].key] == 0);
      var rest := Gets(calls[1..], outcomes[1..], lost);
      assert ([get] + rest)[1..] == rest;
    }
  }

  lemma {:induction false} ServedKeys<R>(seed: Keys, policy: Policy, g: Grown<R>, calls: seq<LiveCall<R>>)
    requires Sound(seed, g) && AllServed(BranchRun(seed, policy, g, calls).outcomes)
    ensures BranchRun(seed, policy, g, calls).end.keys == g.keys
    decreases |calls|
  {
    if calls != [] {
      var s := Branched(seed, policy, g, calls[0]);
      var t, rest := BranchRun(seed, policy, g, calls), BranchRun(seed, policy, s.1, calls[1..]);
      assert t.outcomes[0] == s.0;
      forall i | 0 <= i < |rest.outcomes| ensures rest.outcomes[i].Served? { assert t.outcomes[i + 1] == rest.outcomes[i]; }
      ServedKeys(seed, policy, s.1, calls[1..]);
    }
  }

  /** The branch serves the recorded calls of a run that misses none, each as the policy says. */
  lemma HitsOnly<R>(seed: Keys, policy: Policy, g: Grown<R>, calls: seq<LiveCall<R>>, history: seq<string>)
    requires Sound(seed, g) && Counted(seed, policy, g.replay.cursor, history)
    requires forall i | 0 <= i < |calls| :: SeedAnswer(seed, policy, history, calls, i).Some?
    ensures var t := BranchRun(seed, policy, g, calls); var gets := Gets(calls, t.outcomes, multiset{});
      && t.end.keys == g.keys && Requests(gets) == CallKeys(calls)
      && forall i | 0 <= i < |calls| :: Some(gets[i].index) == SeedAnswer(seed, policy, history, calls, i)
  {
    var t := BranchRun(seed, policy, g, calls);
    forall i | 0 <= i < |calls|
      ensures t.outcomes[i].Served? && Some(t.outcomes[i].index) == SeedAnswer(seed, policy, history, calls, i)
    {
      OutcomeIs(seed, policy, g, history, calls, i);
    }
    ServedKeys(seed, policy, g, calls);
    ServedGets(calls, t.outcomes, multiset{});
  }

  /** Three calls of a key recorded twice: each policy answers the third in its own way. */
  lemma ThirdAnswers(key: string, policy: Policy, again: Policy)
    requires policy != again
    ensures Answer(Group([Some(key), Some(key)], key), 2, policy) != Answer(Group([Some(key), Some(key)], key), 2, again)
  {
    TwoEntries(key);
  }

  lemma ThreeTimes(key: string)
    ensures Times([key, key, key][..0], key) == 0 && Times([key, key, key][..1], key) == 1
    ensures Times([key, key, key][..2], key) == 2
  {
    assert [key, key, key][..1] == [key] && [key, key, key][..2] == [key, key] && [key, key][1..] == [key] && [key][1..] == [];
  }

  lemma OtherPolicyDiffers<R>(policy: Policy, again: Policy, key: string, r: R)
    requires !Agrees(policy, again)
    ensures var call := LiveCall(key, Unreachable);
      && NoneLost([Some(key), Some(key)], policy, [call, call, call])
      && !ReplayAgrees([Some(key), Some(key)], [r, r], policy, again, [call, call, call])
  {
    var seed: Keys := [Some(key), Some(key)];
    var call := LiveCall(key, Unreachable);
    var calls := [call, call, call];
    var g := Grown(START, seed, [r, r]);
    var keys := CallKeys(calls);
    assert keys == [key, key, key];
    TwoEntries(key);
    ThreeTimes(key);
    ThirdAnswers(key, policy, again);
    forall i | 0 <= i < 3 ensures SeedAnswer(seed, policy, [], calls, i) == Answer([0, 1], i, policy) {
      assert [] + keys[..i] == keys[..i];
    }
    HitsOnly(seed, policy, g, calls, []);
    OrderedReplay(seed, again, keys, 2);
    Differs(seed, [r, r], policy, again, calls, 2);
  }

  lemma Differs<R>(seed: Keys, responses: seq<R>, policy: Policy, again: Policy, calls: seq<LiveCall<R>>, i: nat)
    requires |seed| == |responses| && i < |calls|
    requires var t := BranchRun(seed, policy, Grown(START, seed, responses), calls);
      var gets := Gets(calls, t.outcomes, multiset{});
      && t.end.keys == seed && Requests(gets) == CallKeys(calls)
      && Some(gets[i].index) != Run(seed, again, START, CallKeys(calls)).answers[i]
    ensures !ReplayAgrees(seed, responses, policy, again, calls)
  {
  }

  /** The policies under which branch and replay agree are exactly those. */
  lemma AgreesExactly<R(!new)>(policy: Policy, again: Policy, r: R)
    ensures AlwaysAgrees<R>(policy, again) <==> Agrees(policy, again)
  {
    if Agrees(policy, again) {
      forall seed: Keys, responses: seq<R>, calls: seq<LiveCall<R>> | |seed| == |responses| && NoneLost(seed, policy, calls)
        ensures ReplayAgrees(seed, responses, policy, again, calls)
      {
        ReplayAgreesIff(seed, responses, policy, again, calls);
      }
    } else {
      OtherPolicyDiffers(policy, again, "k", r);
    }
  }

  // ---------------------------------------------------------------- concurrent clients

  /** The critical sections of concurrent clients: a lookup, an append, and the filling in of a
      response body when its stream ends. */
  datatype Section<+R> = LookUp(key: string) | Append(key: string, response: R) | FillIn(index: nat, response: R)

  function Enter<R>(seed: Keys, policy: Policy, g: Grown<R>, s: Section<R>): Grown<R> {
    match s
    case LookUp(key) => g.(replay := Lookup(seed, policy, g.replay, key).1)
    case Append(key, r) => g.(keys := g.keys + [Some(key)], responses := g.responses + [r])
    case FillIn(i, r) => if i < |g.responses| then g.(responses := g.responses[i := r]) else g
  }

  function EnterAll<R>(seed: Keys, policy: Policy, g: Grown<R>, sections: seq<Section<R>>): Grown<R>
    decreases |sections|
  {
    if sections == [] then g else EnterAll(seed, policy, Enter(seed, policy, g, sections[0]), sections[1..])
  }

  /** Only appended interactions are filled in. */
  predicate FillsOwn<R>(n: nat, sections: seq<Section<R>>) {
    forall i | 0 <= i < |sections| :: sections[i].FillIn? ==> sections[i].index >= n
  }

  /** In every interleaving of these sections the loaded prefix stays as it was, and a lookup finds an
      interaction of that prefix or nothing. */
  lemma {:induction false} PrefixUntouched<R>(seed: Keys, loaded: seq<R>, policy: Policy, g: Grown<R>, sections: seq<Section<R>>,
                                              key: string)
    requires |seed| == |loaded| && seed <= g.keys && loaded <= g.responses && |g.keys| == |g.responses|
    requires FillsOwn(|seed|, sections)
    ensures var e := EnterAll(seed, policy, g, sections);
      && seed <= e.keys && loaded <= e.responses && |e.keys| == |e.responses|
      && var a := Lookup(seed, policy, e.replay, key).0;
         a.Some? ==> a.value < |loaded| && e.responses[a.value] == loaded[a.value]
    decreases |sections|
  {
    if sections == [] {
      GroupInside(seed, policy, g.replay, key);
    } else {
      PrefixUntouched(seed, loaded, policy, Enter(seed, policy, g, sections[0]), sections[1..], key);
    }
  }
}
