/** Recording, saving, reopening, replaying. */
module Reopen {
  import opened Lists
  import opened Options
  import opened Cassettes
  import opened Replay
  import opened Faults
  import opened Branch
  import opened CassetteObject
  import opened MatchKey

  type Scrub = Interaction -> Interaction

  /** Scrubbing leaves kind and persisted key alone, and the key that is derived where none was
      persisted. */
  ghost predicate KeepsKeys(derive: Deriver, paths: seq<string>, scrub: Scrub, loaded: seq<Interaction>) {
    && (forall it :: scrub(it).kind == it.kind && scrub(it).request.matchKey == it.request.matchKey)
    && (forall it <- loaded :: it.request.matchKey == "" ==> derive(scrub(it), paths) == derive(it, paths))
  }

  /** What a live request records, even when its answer breaks off, carries the key it was looked up by. */
  predicate RecordsKeys(calls: seq<LiveCall<Interaction>>) {
    forall i | 0 <= i < |calls| ::
      !calls[i].live.Unreachable? ==> calls[i].live.response.request.matchKey == calls[i].key && calls[i].key != ""
  }

  lemma KeysSnoc(derive: Deriver, paths: seq<string>, items: seq<Interaction>, it: Interaction)
    ensures KeysOf(derive, paths, items + [it]) == KeysOf(derive, paths, items) + [KeyOf(derive, paths, it)]
  {
    assert (items + [it])[..|items|] == items;
  }

  /** The keys kept beside a growing recording are the keys indexing would find. */
  lemma {:induction false} KeysInStep(derive: Deriver, paths: seq<string>, seed: Keys, policy: Policy,
                                      g: Grown<Interaction>, calls: seq<LiveCall<Interaction>>)
    requires Branch.Sound(seed, g) && g.keys == KeysOf(derive, paths, g.responses) && RecordsKeys(calls)
    ensures var e := BranchRun(seed, policy, g, calls).end; e.keys == KeysOf(derive, paths, e.responses)
    decreases |calls|
  {
    if calls != [] {
      var s := Branched(seed, policy, g, calls[0]);
      if !calls[0].live.Unreachable? { KeysSnoc(derive, paths, g.responses, calls[0].live.response); }
      KeysInStep(derive, paths, seed, policy, s.1, calls[1..]);
    }
  }

  /** Appended interactions carry their own keys. */
  lemma {:induction false} AppendedKeyed(seed: Keys, policy: Policy, g: Grown<Interaction>, calls: seq<LiveCall<Interaction>>,
                                         loaded: seq<Interaction>)
    requires Branch.Sound(seed, g) && RecordsKeys(calls)
    requires forall it <- g.responses :: it in loaded || it.request.matchKey != ""
    ensures forall it <- BranchRun(seed, policy, g, calls).end.responses :: it in loaded || it.request.matchKey != ""
    decreases |calls|
  {
    if calls != [] { AppendedKeyed(seed, policy, Branched(seed, policy, g, calls[0]).1, calls[1..], loaded); }
  }

  lemma SameKey(derive: Deriver, paths: seq<string>, scrub: Scrub, loaded: seq<Interaction>, it: Interaction)
    requires KeepsKeys(derive, paths, scrub, loaded) && (it in loaded || it.request.matchKey != "")
    ensures KeyOf(derive, paths, scrub(it)) == KeyOf(derive, paths, it)
  {
  }

  lemma MapLast(scrub: Scrub, front: seq<Interaction>, last: Interaction)
    ensures MapSeq(scrub, front + [last]) == MapSeq(scrub, front) + [scrub(last)]
  {
    MapSeqAppend(scrub, front, [last]);
    assert [last][1..] == [];
  }

  lemma {:induction false} ScrubbedKeys(derive: Deriver, paths: seq<string>, scrub: Scrub, loaded: seq<Interaction>,
                                        items: seq<Interaction>)
    requires KeepsKeys(derive, paths, scrub, loaded) && forall it <- items :: it in loaded || it.request.matchKey != ""
    ensures KeysOf(derive, paths, MapSeq(scrub, items)) == KeysOf(derive, paths, items)
  {
    if items != [] {
      var front, last := items[..|items| - 1], items[|items| - 1];
      assert items == front + [last];
      ScrubbedKeys(derive, paths, scrub, loaded, front);
      SameKey(derive, paths, scrub, loaded, last);
      MapLast(scrub, front, last);
      KeysSnoc(derive, paths, MapSeq(scrub, front), scrub(last));
      KeysSnoc(derive, paths, front, last);
    }
  }

  /** From a loaded recording (an empty one when recording from scratch) through a run against a live
      side, saving with scrubbing, and reopening: the index of the saved file serves every request that got
      a response, with the interaction recorded for it exactly when no broken answer of a key is followed by
      an answered one; the responses then are those that were got, scrubbed. */
  lemma SavedRunReplays(derive: Deriver, paths: seq<string>, loaded: seq<Interaction>, policy: Policy, again: Policy,
                        calls: seq<LiveCall<Interaction>>, scrub: Scrub)
    requires KeepsKeys(derive, paths, scrub, loaded) && RecordsKeys(calls) && Agrees(policy, again)
    ensures var seed := KeysOf(derive, paths, loaded);
      var t := BranchRun(seed, policy, Grown(START, seed, loaded), calls);
      var gets := Gets(calls, t.outcomes, multiset{});
      var saved := MapSeq(scrub, t.end.responses);
      var answers := Run(KeysOf(derive, paths, saved), again, START, Requests(gets)).answers;
      && (forall i | 0 <= i < |answers| :: answers[i].Some?)
      && (SameInteractions(answers, gets) <==> NoneLost(seed, policy, calls))
      && (NoneLost(seed, policy, calls) ==> Replays(saved, answers, MapSeq(scrub, Responses(gets))))
  {
    var seed := KeysOf(derive, paths, loaded);
    var g := Grown(START, seed, loaded);
    var t := BranchRun(seed, policy, g, calls);
    var gets := Gets(calls, t.outcomes, multiset{});
    KeysInStep(derive, paths, seed, policy, g, calls);
    AppendedKeyed(seed, policy, g, calls, loaded);
    ScrubbedKeys(derive, paths, scrub, loaded, t.end.responses);
    BranchThenReplay(seed, loaded, policy, again, calls);
    NoneLostClean(seed, loaded, policy, calls);
    var answers := Run(t.end.keys, again, START, Requests(gets)).answers;
    if NoneLost(seed, policy, calls) { AgreedResponses(t.end.responses, answers, gets, scrub); }
  }

  /** One request to the cassette object, without faults, is one step of the branch: the same state, the
      same interactions, and the same answer for the client. */
  lemma ObjectBranches(seed: Keys, policy: Policy, g: Grown<Interaction>, attempts: map<string, nat>,
                       call: Call, live: Live<Interaction>)
    requires Branch.Sound(seed, g)
    ensures var s := Serve([], seed, ResponsesOf(g.responses[..|seed|]), policy, FaultState(g.replay, attempts), call);
      var b := Branched(seed, policy, g, LiveCall(call.key, live));
      && s.1.replay == b.1.replay
      && (s.0.Missed? ==>
          && b.1.responses == g.responses + (if live.Unreachable? then [] else [live.response])
          && (if IsGot(b.0) then live.Answered? && b.0.response == live.response else !live.Answered?))
      && (!s.0.Missed? ==>
          && b.1.responses == g.responses && b.0.Served? && CassetteObject.Reply(s.0) == Some(b.0.response.response))
  {
    GroupInside(seed, policy, g.replay, call.key);
  }

  // ---------------------------------------------------------------- when a saved recording opens again

  /** What indexing asks of a recording. */
  predicate Opens(derive: Deriver, paths: seq<string>, items: seq<Interaction>) {
    forall it <- items :: !IndexKey(derive, paths, it).Underivable?
  }

  lemma {:induction false} MappedIn(scrub: Scrub, items: seq<Interaction>)
    ensures forall y :: y in MapSeq(scrub, items) <==> exists it <- items :: y == scrub(it)
  {
    if items != [] {
      MappedIn(scrub, items[1..]);
      assert items == [items[0]] + items[1..];
    }
  }

  /** A branch appends only what has its key, so it opens again when it opened before. */
  lemma SavedBranchOpens(derive: Deriver, paths: seq<string>, loaded: seq<Interaction>, policy: Policy,
                         calls: seq<LiveCall<Interaction>>, scrub: Scrub)
    requires KeepsKeys(derive, paths, scrub, loaded) && RecordsKeys(calls) && Opens(derive, paths, loaded)
    ensures var seed := KeysOf(derive, paths, loaded);
      var t := BranchRun(seed, policy, Grown(START, seed, loaded), calls);
      Opens(derive, paths, MapSeq(scrub, t.end.responses))
  {
    var seed := KeysOf(derive, paths, loaded);
    var g := Grown(START, seed, loaded);
    AppendedKeyed(seed, policy, g, calls, loaded);
    MappedIn(scrub, BranchRun(seed, policy, g, calls).end.responses);
  }

  /** A request in record mode: it is sent whether or not its key can be derived, and what the live side
      answers is stored with that key or with none. */
  datatype RecordCall = RecordCall(key: Option<string>, live: Live<Interaction>)

  predicate StoresKey(c: RecordCall) {
    c.key != Some("")
    && (!c.live.Unreachable? ==>
        c.live.response.kind.Http? && c.live.response.request.matchKey == if c.key.Some? then c.key.value else "")
  }

  function Stored(calls: seq<RecordCall>): seq<Interaction> {
    if calls == [] then []
    else (if calls[0].live.Unreachable? then [] else [calls[0].live.response]) + Stored(calls[1..])
  }

  lemma {:induction false} StoredIn(calls: seq<RecordCall>)
    ensures forall it :: it in Stored(calls) <==> exists c <- calls :: !c.live.Unreachable? && it == c.live.response
  {
    if calls != [] {
      StoredIn(calls[1..]);
      assert calls == [calls[0]] + calls[1..];
    }
  }

  /** A recording opens again exactly when every request that was stored had a key, or its stored form,
      scrubbed, has one: a single request without one, such as a multipart body that cannot be parsed, shuts
      the whole recording. */
  lemma RecordingOpensIff(derive: Deriver, paths: seq<string>, calls: seq<RecordCall>, scrub: Scrub)
    requires forall c <- calls :: StoresKey(c)
    requires forall it :: scrub(it).kind == it.kind && scrub(it).request.matchKey == it.request.matchKey
    ensures Opens(derive, paths, MapSeq(scrub, Stored(calls)))
      <==> forall c <- calls :: c.live.Unreachable? || c.key.Some? || derive(scrub(c.live.response), paths).Some?
  {
    StoredIn(calls);
    MappedIn(scrub, Stored(calls));
    if Opens(derive, paths, MapSeq(scrub, Stored(calls))) {
      forall c <- calls ensures c.live.Unreachable? || c.key.Some? || derive(scrub(c.live.response), paths).Some? {
        if !c.live.Unreachable? {
          assert c.live.response in Stored(calls) && scrub(c.live.response) in MapSeq(scrub, Stored(calls));
          assert StoresKey(c);
        }
      }
    }
    if forall c <- calls :: c.live.Unreachable? || c.key.Some? || derive(scrub(c.live.response), paths).Some? {
      forall y <- MapSeq(scrub, Stored(calls)) ensures !IndexKey(derive, paths, y).Underivable? {
        var it :| it in Stored(calls) && y == scrub(it);
        var c :| c in calls && !c.live.Unreachable? && it == c.live.response;
        assert StoresKey(c);
      }
    }
  }

  function AsLive(calls: seq<RecordCall>): seq<LiveCall<Interaction>>
    requires forall c <- calls :: c.key.Some?
  {
    if calls == [] then []
    else
      assert calls[0] in calls;
      [LiveCall(calls[0].key.value, calls[0].live)] + AsLive(calls[1..])
  }

  /** Where every request has a key, recording is a branch of the empty recording. */
  lemma {:induction false} RecordingIsBranch(policy: Policy, g: Grown<Interaction>, calls: seq<RecordCall>)
    requires |g.keys| == |g.responses| && forall c <- calls :: c.key.Some? && StoresKey(c)
    ensures RecordsKeys(AsLive(calls))
    ensures BranchRun([], policy, g, AsLive(calls)).end.responses == g.responses + Stored(calls)
    decreases |calls|
  {
    if calls == [] {
      NothingAdded(g.responses);
    } else {
      assert calls[0] in calls;
      var c := LiveCall(calls[0].key.value, calls[0].live);
      var rest := AsLive(calls[1..]);
      var all := AsLive(calls);
      assert all == [c] + rest && all[1..] == rest;
      var next := Branched([], policy, g, c).1;
      RecordingIsBranch(policy, next, calls[1..]);
      NothingAdded(g.responses);
      NothingAdded(Stored(calls[1..]));
      if !c.live.Unreachable? { Assoc(g.responses, [c.live.response], Stored(calls[1..])); }
      forall i | 0 <= i < |all| && !all[i].live.Unreachable?
        ensures all[i].live.response.request.matchKey == all[i].key && all[i].key != ""
      {
        if i > 0 { assert all[i] == rest[i - 1]; }
      }
    }
  }
}
