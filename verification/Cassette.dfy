/** The cassette object: index, lookup, branch, verify. */
module CassetteObject {
  import opened Options
  import opened Cassettes
  import opened MatchKey
  import opened Replay
  import opened Faults
  import Tail = Branch

  /** How indexing sees an interaction: under its persisted key, under a derived one, not at all, or as
      an error. */
  datatype Indexed = Under(key: string) | Skipped | Underivable

  function IndexKey(derive: Deriver, paths: seq<string>, it: Interaction): Indexed {
    if it.request.matchKey != "" then Under(it.request.matchKey)
    else match it.kind
      case OtherKind(_) => Skipped
      case _ =>
        var k := derive(it, paths);
        if k.None? then Underivable else Under(k.value)
  }

  function KeyOf(derive: Deriver, paths: seq<string>, it: Interaction): Option<string> {
    var k := IndexKey(derive, paths, it);
    if k.Under? then Some(k.key) else None
  }

  lemma KeyOfDerived(derive: Deriver, ps: seq<string>, qs: seq<string>, it: Interaction)
    requires derive(it, ps) == derive(it, qs)
    ensures KeyOf(derive, ps, it) == KeyOf(derive, qs, it)
  {
  }

  /** The keys a recording is replayed by. */
  function KeysOf(derive: Deriver, paths: seq<string>, items: seq<Interaction>): (r: Keys)
    ensures |r| == |items|
  {
    if items == [] then []
    else KeysOf(derive, paths, items[..|items| - 1]) + [KeyOf(derive, paths, items[|items| - 1])]
  }

  function ResponsesOf(items: seq<Interaction>): (r: seq<Response>)
    ensures |r| == |items| && forall i | 0 <= i < |items| :: r[i] == items[i].response
  {
    seq(|items|, i requires 0 <= i < |items| => items[i].response)
  }

  predicate Replayable(it: Interaction) { it.kind.Http? || it.kind.Mcp? }

  /** What verification asks of a finished replay. */
  predicate Verified(items: seq<Interaction>, faults: seq<Fault>, consumed: set<nat>, dials: nat) {
    && dials == 0
    && forall i | 0 <= i < |items| && Replayable(items[i]) ::
      i in consumed || Shadows(faults, items[i].request.verb, items[i].request.url)
  }

  datatype Mode = Recording | Replaying | Branching

  /** What a client gets for an outcome. */
  function Reply(o: Outcome): Option<Response> {
    match o
    case Missed => None
    case Injected(f) => Some(SynthResponse(f))
    case Played(_, r) => Some(r)
  }

  function AnswerWith(loaded: seq<Response>, i: nat, fault: Option<Fault>): Option<Response> {
    if i < |loaded| then Some(Altered(loaded[i], fault)) else None
  }

  class Cassette {
    const policy: Policy
    const faults: seq<Fault>
    const mode: Mode
    var interactions: seq<Interaction>
    var keys: map<string, seq<nat>>
    var cursor: map<string, nat>
    var consumed: set<nat>
    var attempts: map<string, nat>
    var dials: nat

    /** The keys of the interactions that were there when the recording was indexed. */
    ghost var seed: Keys

    ghost predicate Valid()
      reads this
    {
      && |seed| <= |interactions|
      && Grouped(keys, seed)
      && (forall key <- cursor :: cursor[key] > 0)
    }

    ghost function State(): FaultState
      reads this
    {
      FaultState(Replay.State(cursor, consumed), attempts)
    }

    ghost function Loaded(): seq<Response>
      reads this
      requires |seed| <= |interactions|
    {
      ResponsesOf(interactions[..|seed|])
    }

    constructor (items: seq<Interaction>, policy: Policy, faults: seq<Fault>, mode: Mode)
      ensures interactions == items && State() == FRESH && dials == 0
      ensures this.policy == policy && this.faults == faults && this.mode == mode
    {
      this.policy, this.faults, this.mode := policy, faults, mode;
      interactions, keys, cursor, consumed, attempts, dials, seed := items, map[], map[], {}, map[], 0, [];
    }

    /** Groups the interactions by key in recorded order; fails on one whose key cannot be derived. */
    method Index(derive: Deriver, paths: seq<string>) returns (ok: bool)
      requires cursor == map[]
      modifies this`keys, this`seed
      ensures ok <==> forall i | 0 <= i < |interactions| :: !IndexKey(derive, paths, interactions[i]).Underivable?
      ensures ok ==> Valid() && seed == KeysOf(derive, paths, interactions)
    {
      keys, seed := map[], [];
      var i := 0;
      while i < |interactions|
        invariant 0 <= i <= |interactions| && seed == KeysOf(derive, paths, interactions[..i])
        invariant forall k | 0 <= k < i :: !IndexKey(derive, paths, interactions[k]).Underivable?
        invariant Grouped(keys, seed)
      {
        var k := IndexKey(derive, paths, interactions[i]);
        if k.Underivable? { return false; }
        assert interactions[..i + 1][..i] == interactions[..i];
        GroupedStep(keys, seed, KeyOf(derive, paths, interactions[i]));
        if k.Under? { keys := keys[k.key := GroupIn(keys, k.key) + [i]]; }
        seed := seed + [KeyOf(derive, paths, interactions[i])];
        i := i + 1;
      }
      assert interactions[..|interactions|] == interactions;
      return true;
    }

    method NextIndexLocked(key: string) returns (r: Option<nat>)
      requires Valid()
      modifies this`cursor
      ensures Valid()
      ensures var next := Next(Group(seed, key), CursorOf(old(cursor), key), policy);
        && r == next.0
        && cursor == if r.Some? then old(cursor)[key := next.1] else old(cursor)
    {
      var group := GroupIn(keys, key);
      assert group == Group(seed, key);
      if |group| == 0 { return None; }
      var n := CursorOf(cursor, key);
      if n < |group| {
        cursor := cursor[key := n + 1];
        return Some(group[n]);
      }
      match policy {
        case RepeatLast =>
          assert cursor == cursor[key := n];
          return Some(group[|group| - 1]);
        case Cycle =>
          cursor := cursor[key := n + 1];
          return Some(group[n % |group|]);
        case Fail => return None;
      }
    }

    /** The recorded response next in turn, with a modify fault applied to a copy of it. */
    method Play(key: string, fault: Option<Fault>) returns (r: Option<Response>)
      requires Valid()
      modifies this`cursor, this`consumed
      ensures Valid()
      ensures var s := Lookup(seed, policy, old(Replay.State(cursor, consumed)), key);
        && Replay.State(cursor, consumed) == s.1
        && r == (match s.0 case None => None case Some(i) => AnswerWith(Loaded(), i, fault))
    {
      InRange(seed, policy, Replay.State(cursor, consumed), key);
      var i := NextIndexLocked(key);
      if i.None? { return None; }
      consumed := consumed + {i.value};
      var response := interactions[i.value].response;
      if fault.Some? { response := ApplyModify(response, fault.value); }
      return Some(response);
    }

    method NextFault(verb: string, path: string, key: string) returns (fault: Option<Fault>)
      modifies this`attempts
      ensures (fault, attempts) == FaultFor(faults, old(attempts), Call(verb, path, key))
    {
      if |faults| == 0 { return None; }
      attempts := attempts[key := AttemptsOf(attempts, key) + 1];
      fault := FindFault(faults, verb, path, attempts[key]);
    }

    /** One lookup, faults laid over it. The recording itself is never touched. */
    method MatchResponse(verb: string, path: string, key: string) returns (r: Option<Response>)
      requires Valid()
      modifies this`cursor, this`consumed, this`attempts
      ensures Valid()
      ensures var s := Serve(faults, seed, Loaded(), policy, old(State()), Call(verb, path, key));
        r == Reply(s.0) && State() == s.1
    {
      var fault := NextFault(verb, path, key);
      if fault.Some? && fault.value.Synthetic() { return Some(SynthResponse(fault.value)); }
      InRange(seed, policy, Replay.State(cursor, consumed), key);
      r := Play(key, fault);
    }

    /** A request against the live side: an answer is appended before its body is read, so one that breaks
        off stays in the recording while the client gets an error. A failed dial appends nothing. */
    method Record(live: Tail.Live<Interaction>) returns (r: Option<Response>)
      requires Valid()
      modifies this`interactions
      ensures Valid() && Loaded() == old(Loaded())
      ensures r == (if live.Answered? then Some(live.response.response) else None)
      ensures interactions == old(interactions) + if live.Unreachable? then [] else [live.response]
    {
      if live.Unreachable? { return None; }
      interactions := interactions + [live.response];
      assert interactions[..|seed|] == old(interactions)[..|seed|];
      return if live.Answered? then Some(live.response.response) else None;
    }

    /** A request in branch mode: served from the loaded prefix or, on a miss, from the live side. */
    method Branch(verb: string, path: string, key: string, live: Tail.Live<Interaction>) returns (r: Option<Response>)
      requires Valid()
      modifies this`cursor, this`consumed, this`attempts, this`interactions
      ensures Valid() && Loaded() == old(Loaded())
      ensures var s := Serve(faults, seed, old(Loaded()), policy, old(State()), Call(verb, path, key));
        && State() == s.1
        && (if s.0.Missed? then
              && r == (if live.Answered? then Some(live.response.response) else None)
              && interactions == old(interactions) + if live.Unreachable? then [] else [live.response]
            else r == Reply(s.0) && interactions == old(interactions))
    {
      r := MatchResponse(verb, path, key);
      if r.None? { r := Record(live); }
    }

    /** Fills in the response of an appended interaction when its stream ends. */
    method SetStreamCapture(index: nat, response: Response)
      requires Valid() && |seed| <= index < |interactions|
      modifies this`interactions
      ensures Valid() && Loaded() == old(Loaded())
      ensures interactions == old(interactions)[index := old(interactions[index]).(response := response)]
    {
      interactions := interactions[index := interactions[index].(response := response)];
      assert interactions[..|seed|] == old(interactions)[..|seed|];
    }

    /** Whether verification passes: a replay must have dialled nothing and consumed everything; recording
        and branching save what was recorded, and pass when that works. */
    method VerifyError(saved: bool) returns (ok: bool)
      ensures ok <==> if mode.Replaying? then Verified(interactions, faults, consumed, dials) else saved
    {
      if !mode.Replaying? { return saved; }
      if dials != 0 { return false; }
      ok := true;
      var i := 0;
      while i < |interactions|
        invariant 0 <= i <= |interactions|
        invariant ok <==> Verified(interactions[..i], faults, consumed, 0)
      {
        var it := interactions[i];
        assert interactions[..i + 1] == interactions[..i] + [it];
        if Replayable(it) && i !in consumed {
          var shadowed := ShadowsEveryAttempt(faults, it.request.verb, it.request.url);
          if !shadowed { ok := false; }
        }
        VerifiedOneMore(interactions[..i], it, faults, consumed);
        i := i + 1;
      }
      assert interactions[..|interactions|] == interactions;
    }
  }

  function GroupIn(keys: map<string, seq<nat>>, key: string): seq<nat> {
    if key in keys then keys[key] else []
  }

  ghost predicate Grouped(keys: map<string, seq<nat>>, seed: Keys) {
    forall key :: GroupIn(keys, key) == Group(seed, key)
  }

  lemma GroupedStep(keys: map<string, seq<nat>>, seed: Keys, k: Option<string>)
    requires Grouped(keys, seed)
    ensures Grouped(if k.Some? then keys[k.value := GroupIn(keys, k.value) + [|seed|]] else keys, seed + [k])
  {
    assert (seed + [k])[..|seed|] == seed;
    var next := if k.Some? then keys[k.value := GroupIn(keys, k.value) + [|seed|]] else keys;
    forall key ensures GroupIn(next, key) == Group(seed + [k], key) {
      assert GroupIn(keys, key) == Group(seed, key);
    }
  }

  lemma VerifiedOneMore(items: seq<Interaction>, it: Interaction, faults: seq<Fault>, consumed: set<nat>)
    ensures Verified(items + [it], faults, consumed, 0)
      <==> && Verified(items, faults, consumed, 0)
           && (Replayable(it) ==> |items| in consumed || Shadows(faults, it.request.verb, it.request.url))
  {
    var all := items + [it];
    if Verified(all, faults, consumed, 0) {
      forall i | 0 <= i < |items| && Replayable(items[i])
        ensures i in consumed || Shadows(faults, items[i].request.verb, items[i].request.url)
      {
        assert all[i] == items[i];
      }
      assert all[|items|] == it;
    }
  }

  // ---------------------------------------------------------------- verification over whole runs

  lemma {:induction false} KeysAt(derive: Deriver, paths: seq<string>, items: seq<Interaction>, i: nat)
    requires i < |items|
    ensures KeysOf(derive, paths, items)[i] == KeyOf(derive, paths, items[i])
  {
    if i < |items| - 1 { KeysAt(derive, paths, items[..|items| - 1], i); }
  }

  /** The calls of a key that got past the synthetic faults outnumber what of the key was recorded
      before an interaction. */
  predicate Reached(keys: Keys, reaching: seq<string>, i: nat)
    requires i < |keys|
  {
    keys[i].Some? && Times(reaching, keys[i].value) > |Group(keys[..i], keys[i].value)|
  }

  /** After any run, under any faults and policy, verification passes exactly when nothing was dialled
      and every HTTP or MCP interaction was reached by enough requests of its key or is excused. */
  lemma VerifiedIff(derive: Deriver, paths: seq<string>, items: seq<Interaction>, faults: seq<Fault>, policy: Policy,
                    calls: seq<Call>, dials: nat)
    ensures var keys := KeysOf(derive, paths, items);
      var t := RunFaults(faults, keys, ResponsesOf(items), policy, FRESH, calls);
      (Verified(items, faults, t.end.replay.consumed, dials)
        <==>
       (dials == 0
        && forall i | 0 <= i < |items| && (items[i].kind == Http || items[i].kind == Mcp) ::
             Reached(keys, Reaching(calls, t.outcomes), i) || Shadows(faults, items[i].request.verb, items[i].request.url)))
  {
    var keys := KeysOf(derive, paths, items);
    var t := RunFaults(faults, keys, ResponsesOf(items), policy, FRESH, calls);
    FaultsErase(faults, keys, ResponsesOf(items), policy, FRESH, calls);
    forall i | 0 <= i < |items| ensures i in t.end.replay.consumed <==> Reached(keys, Reaching(calls, t.outcomes), i) {
      ConsumedIff(keys, policy, Reaching(calls, t.outcomes), i);
    }
  }

  lemma {:induction false} NoFaultReaches(keys: Keys, items: seq<Response>, policy: Policy, st: FaultState, calls: seq<Call>)
    requires |keys| == |items|
    ensures Reaching(calls, RunFaults([], keys, items, policy, st, calls).outcomes) == KeysCalled(calls)
    decreases |calls|
  {
    if calls != [] {
      var s := Serve([], keys, items, policy, st, calls[0]);
      NoFaultReaches(keys, items, policy, s.1, calls[1..]);
      assert RunFaults([], keys, items, policy, st, calls).outcomes[1..]
          == RunFaults([], keys, items, policy, s.1, calls[1..]).outcomes;
    }
  }

  /** Without faults and dials, a recording of HTTP and MCP interactions verifies exactly when each
      key was requested at least as often as it was recorded. */
  lemma VerifiedIffEnough(derive: Deriver, paths: seq<string>, items: seq<Interaction>, policy: Policy, calls: seq<Call>)
    requires forall i | 0 <= i < |items| ::
      (items[i].kind == Http || items[i].kind == Mcp) && IndexKey(derive, paths, items[i]).Under?
    ensures var keys := KeysOf(derive, paths, items);
      (Verified(items, [], RunFaults([], keys, ResponsesOf(items), policy, FRESH, calls).end.replay.consumed, 0)
        <==>
       Enough(keys, KeysCalled(calls)))
  {
    var keys := KeysOf(derive, paths, items);
    var t := RunFaults([], keys, ResponsesOf(items), policy, FRESH, calls);
    FaultsErase([], keys, ResponsesOf(items), policy, FRESH, calls);
    NoFaultReaches(keys, ResponsesOf(items), policy, FRESH, calls);
    forall i | 0 <= i < |keys| ensures keys[i].Some? { KeysAt(derive, paths, items, i); }
    AllConsumedIff(keys, policy, KeysCalled(calls));
    assert Verified(items, [], t.end.replay.consumed, 0) <==> AllIn(|keys|, t.end.replay.consumed);
  }
}
