/** Replay as a state machine, over whole runs. */
module Replay {
  import opened Options

  /** What happens once every recorded entry of a key has been served. */
  datatype Policy = Fail | RepeatLast | Cycle

  /** The key of each interaction of a file; none for an interaction that is not matched at all. */
  type Keys = seq<Option<string>>

  /** The interactions of one key, in recorded order. */
  function Group(keys: Keys, key: string): seq<nat> {
    if keys == [] then []
    else
      var n := |keys| - 1;
      Group(keys[..n], key) + if keys[n] == Some(key) then [n] else []
  }

  lemma {:induction false} GroupExact(keys: Keys, key: string)
    ensures forall i | 0 <= i < |Group(keys, key)| :: Group(keys, key)[i] < |keys| && keys[Group(keys, key)[i]] == Some(key)
    ensures forall i, j | 0 <= i < j < |Group(keys, key)| :: Group(keys, key)[i] < Group(keys, key)[j]
  {
    if keys != [] { GroupExact(keys[..|keys| - 1], key); }
  }

  /** Every interaction is in the group of its key, at the place given by those before it. */
  lemma {:induction false} GroupHas(keys: Keys, key: string, i: nat)
    requires i < |keys| && keys[i] == Some(key)
    ensures var p := |Group(keys[..i], key)|; p < |Group(keys, key)| && Group(keys, key)[p] == i
  {
    var n := |keys| - 1;
    if i < n {
      assert keys[..n][..i] == keys[..i];
      GroupHas(keys[..n], key, i);
    }
  }

  lemma {:induction false} GroupPrefix(keys: Keys, n: nat, key: string)
    requires n <= |keys|
    ensures Group(keys[..n], key) <= Group(keys, key)
  {
    if n < |keys| {
      assert keys[..|keys| - 1][..n] == keys[..n];
      GroupPrefix(keys[..|keys| - 1], n, key);
    } else {
      assert keys[..n] == keys;
    }
  }

  // ---------------------------------------------------------------- one lookup

  /** The interaction to serve next and the cursor after it. */
  function Next(group: seq<nat>, cursor: nat, policy: Policy): (Option<nat>, nat) {
    if group == [] then (None, cursor)
    else if cursor < |group| then (Some(group[cursor]), cursor + 1)
    else match policy
      case RepeatLast => (Some(group[|group| - 1]), cursor)
      case Cycle => (Some(group[cursor % |group|]), cursor + 1)
      case Fail => (None, cursor)
  }

  type Cursors = map<string, nat>

  function CursorOf(c: Cursors, key: string): nat {
    if key in c then c[key] else 0
  }

  datatype State = State(cursor: Cursors, consumed: set<nat>)

  const START := State(map[], {})

  function Lookup(keys: Keys, policy: Policy, st: State, key: string): (Option<nat>, State) {
    var next := Next(Group(keys, key), CursorOf(st.cursor, key), policy);
    match next.0
    case None => (None, st)
    case Some(i) => (Some(i), State(st.cursor[key := next.1], st.consumed + {i}))
  }

  // ---------------------------------------------------------------- whole runs

  datatype Trace = Trace(answers: seq<Option<nat>>, end: State)

  /** A run of lookups, each atomic, in the order in which they are served. */
  function Run(keys: Keys, policy: Policy, st: State, requests: seq<string>): (t: Trace)
    ensures |t.answers| == |requests|
    decreases |requests|
  {
    if requests == [] then Trace([], st)
    else
      var s := Lookup(keys, policy, st, requests[0]);
      var t := Run(keys, policy, s.1, requests[1..]);
      Trace([s.0] + t.answers, t.end)
  }

  /** How often a key was requested. */
  function Times(requests: seq<string>, key: string): nat {
    if requests == [] then 0 else (if requests[0] == key then 1 else 0) + Times(requests[1..], key)
  }

  /** The answer to the i-th request of a key, counted from 0. */
  function Answer(group: seq<nat>, i: nat, policy: Policy): Option<nat> {
    if group == [] then None
    else if i < |group| then Some(group[i])
    else match policy
      case RepeatLast => Some(group[|group| - 1])
      case Cycle => Some(group[i % |group|])
      case Fail => None
  }

  /** The cursor after i requests. */
  function CursorAfter(group: seq<nat>, i: nat, policy: Policy): nat {
    if group == [] then 0 else if i <= |group| || policy.Cycle? then i else |group|
  }

  /** The cursors left by a history of requests. */
  ghost predicate Counted(keys: Keys, policy: Policy, cursor: Cursors, history: seq<string>) {
    forall key :: CursorOf(cursor, key) == CursorAfter(Group(keys, key), Times(history, key), policy)
  }

  lemma {:induction false} TimesAppend(a: seq<string>, b: seq<string>, key: string)
    ensures Times(a + b, key) == Times(a, key) + Times(b, key)
  {
    if a == [] {
      assert a + b == b;
    } else {
      assert (a + b)[1..] == a[1..] + b;
      TimesAppend(a[1..], b, key);
    }
  }

  lemma TimesOne(history: seq<string>, key: string, other: string)
    ensures Times(history + [key], other) == Times(history, other) + if key == other then 1 else 0
  {
    TimesAppend(history, [key], other);
    assert [key][1..] == [];
  }

  lemma LookupCounted(keys: Keys, policy: Policy, st: State, history: seq<string>, key: string)
    requires Counted(keys, policy, st.cursor, history)
    ensures var s := Lookup(keys, policy, st, key);
      && s.0 == Answer(Group(keys, key), Times(history, key), policy)
      && Counted(keys, policy, s.1.cursor, history + [key])
  {
    var s := Lookup(keys, policy, st, key);
    assert CursorOf(st.cursor, key) == CursorAfter(Group(keys, key), Times(history, key), policy);
    forall other ensures CursorOf(s.1.cursor, other) == CursorAfter(Group(keys, other), Times(history + [key], other), policy) {
      TimesOne(history, key, other);
      assert CursorOf(st.cursor, other) == CursorAfter(Group(keys, other), Times(history, other), policy);
    }
  }

  lemma HistoryMoves(history: seq<string>, requests: seq<string>, t: nat)
    requires t < |requests|
    ensures if t == 0 then history + requests[..t] == history
            else history + requests[..t] == history + [requests[0]] + requests[1..][..t - 1]
  {
  }

  lemma {:induction false} AnswersCounted(keys: Keys, policy: Policy, st: State, history: seq<string>,
                                          requests: seq<string>, t: nat)
    requires Counted(keys, policy, st.cursor, history) && t < |requests|
    ensures Run(keys, policy, st, requests).answers[t]
         == Answer(Group(keys, requests[t]), Times(history + requests[..t], requests[t]), policy)
    decreases |requests|
  {
    LookupCounted(keys, policy, st, history, requests[0]);
    var next := Lookup(keys, policy, st, requests[0]).1;
    HistoryMoves(history, requests, t);
    if t > 0 { AnswersCounted(keys, policy, next, history + [requests[0]], requests[1..], t - 1); }
  }

  /** Ordered replay, over every interleaving: the i-th request of a key is answered with the i-th
      recorded interaction of that key, then by the exhaustion policy, whatever else is requested. */
  lemma OrderedReplay(keys: Keys, policy: Policy, requests: seq<string>, t: nat)
    requires t < |requests|
    ensures Run(keys, policy, START, requests).answers[t]
         == Answer(Group(keys, requests[t]), Times(requests[..t], requests[t]), policy)
  {
    AnswersCounted(keys, policy, START, [], requests, t);
    assert [] + requests[..t] == requests[..t];
  }

  lemma {:induction false} TimesGrow(requests: seq<string>, s: nat, t: nat, key: string)
    requires s < t <= |requests| && requests[s] == key
    ensures Times(requests[..s], key) < Times(requests[..t], key)
  {
    assert requests[..t] == requests[..s] + requests[s..t];
    TimesAppend(requests[..s], requests[s..t], key);
    assert requests[s..t][0] == key;
  }

  lemma AnswerHasKey(keys: Keys, policy: Policy, key: string, i: nat)
    requires Answer(Group(keys, key), i, policy).Some?
    ensures var a := Answer(Group(keys, key), i, policy).value; a < |keys| && keys[a] == Some(key)
  {
    GroupExact(keys, key);
  }

  /** Under the failing policy no interaction is served twice. */
  lemma ServedOnce(keys: Keys, requests: seq<string>, s: nat, t: nat)
    requires s < t < |requests|
    ensures var a := Run(keys, Fail, START, requests).answers; a[s].Some? ==> a[s] != a[t]
  {
    var a := Run(keys, Fail, START, requests).answers;
    OrderedReplay(keys, Fail, requests, s);
    OrderedReplay(keys, Fail, requests, t);
    if a[s].Some? && a[s] == a[t] {
      AnswerHasKey(keys, Fail, requests[s], Times(requests[..s], requests[s]));
      AnswerHasKey(keys, Fail, requests[t], Times(requests[..t], requests[t]));
      TimesGrow(requests, s, t, requests[s]);
      GroupExact(keys, requests[s]);
      assert false;
    }
  }

  // ---------------------------------------------------------------- what a run consumes

  lemma {:induction false} RunConsumes(keys: Keys, policy: Policy, st: State, requests: seq<string>)
    ensures Run(keys, policy, st, requests).end.consumed
         == st.consumed + set t | 0 <= t < |requests| && Run(keys, policy, st, requests).answers[t].Some?
                              :: Run(keys, policy, st, requests).answers[t].value
    decreases |requests|
  {
    if requests != [] {
      var s := Lookup(keys, policy, st, requests[0]);
      var r := Run(keys, policy, s.1, requests[1..]);
      RunConsumes(keys, policy, s.1, requests[1..]);
      var a := Run(keys, policy, st, requests).answers;
      assert a[1..] == r.answers;
      var served := set t | 0 <= t < |requests| && a[t].Some? :: a[t].value;
      var later := set t | 0 <= t < |requests| - 1 && r.answers[t].Some? :: r.answers[t].value;
      assert s.1.consumed == st.consumed + if s.0.Some? then {s.0.value} else {};
      forall x ensures x in served <==> x in later || (s.0.Some? && x == s.0.value) {
        if x in later {
          var t :| 0 <= t < |requests| - 1 && r.answers[t].Some? && r.answers[t].value == x;
          assert a[t + 1] == r.answers[t];
        }
        if s.0.Some? && x == s.0.value { assert a[0] == s.0; }
        if x in served {
          var t :| 0 <= t < |requests| && a[t].Some? && a[t].value == x;
          if t > 0 { assert r.answers[t - 1] == a[t]; }
        }
      }
    }
  }

  lemma {:induction false} TimesReach(requests: seq<string>, key: string, i: nat)
    requires i < Times(requests, key)
    ensures exists t: nat | t < |requests| :: requests[t] == key && Times(requests[..t], key) == i
    decreases |requests|
  {
    var n := |requests| - 1;
    assert requests == requests[..n] + [requests[n]];
    TimesOne(requests[..n], requests[n], key);
    if i < Times(requests[..n], key) {
      TimesReach(requests[..n], key, i);
      var t: nat :| t < n && requests[..n][t] == key && Times(requests[..n][..t], key) == i;
      assert requests[..n][..t] == requests[..t];
    }
  }

  lemma {:induction false} TimesMonotone(requests: seq<string>, t: nat, key: string)
    requires t <= |requests|
    ensures Times(requests[..t], key) <= Times(requests, key)
  {
    assert requests == requests[..t] + requests[t..];
    TimesAppend(requests[..t], requests[t..], key);
  }

  /** An answer that is this interaction comes at or after its turn. */
  lemma AnswerNotEarly(keys: Keys, policy: Policy, key: string, i: nat, c: nat)
    requires i < |keys| && keys[i] == Some(key) && Answer(Group(keys, key), c, policy) == Some(i)
    ensures |Group(keys[..i], key)| <= c
  {
    GroupExact(keys, key);
    GroupHas(keys, key, i);
  }

  /** An interaction has been served exactly when its key was requested more often than the key stands
      before it in the recording. */
  lemma ConsumedIff(keys: Keys, policy: Policy, requests: seq<string>, i: nat)
    requires i < |keys|
    ensures i in Run(keys, policy, START, requests).end.consumed
      <==> keys[i].Some? && Times(requests, keys[i].value) > |Group(keys[..i], keys[i].value)|
  {
    RunConsumes(keys, policy, START, requests);
    var a := Run(keys, policy, START, requests).answers;
    if i in Run(keys, policy, START, requests).end.consumed {
      var t: nat :| t < |requests| && a[t].Some? && a[t].value == i;
      OrderedReplay(keys, policy, requests, t);
      AnswerHasKey(keys, policy, requests[t], Times(requests[..t], requests[t]));
      AnswerNotEarly(keys, policy, requests[t], i, Times(requests[..t], requests[t]));
      TimesGrow(requests, t, t + 1, requests[t]);
      TimesMonotone(requests, t + 1, requests[t]);
    }
    if keys[i].Some? && Times(requests, keys[i].value) > |Group(keys[..i], keys[i].value)| {
      var key := keys[i].value;
      GroupHas(keys, key, i);
      TimesReach(requests, key, |Group(keys[..i], key)|);
      var t: nat :| t < |requests| && requests[t] == key && Times(requests[..t], key) == |Group(keys[..i], key)|;
      OrderedReplay(keys, policy, requests, t);
      assert a[t] == Some(i);
    }
  }

  lemma {:induction false} GroupBefore(keys: Keys, key: string, i: nat)
    requires i < |keys| && keys[i] == Some(key)
    ensures |Group(keys[..i], key)| < |Group(keys, key)|
  {
    GroupHas(keys, key, i);
  }

  /** Each key was requested at least as often as it was recorded. */
  ghost predicate Enough(keys: Keys, requests: seq<string>) {
    forall key :: Times(requests, key) >= |Group(keys, key)|
  }

  predicate AllIn(n: nat, consumed: set<nat>) {
    forall i | 0 <= i < n :: i in consumed
  }

  /** Everything recorded was replayed exactly when each key was requested at least as often as it
      was recorded. */
  lemma AllConsumedIff(keys: Keys, policy: Policy, requests: seq<string>)
    requires forall i | 0 <= i < |keys| :: keys[i].Some?
    ensures AllIn(|keys|, Run(keys, policy, START, requests).end.consumed) <==> Enough(keys, requests)
  {
    var consumed := Run(keys, policy, START, requests).end.consumed;
    if AllIn(|keys|, consumed) {
      forall key ensures Times(requests, key) >= |Group(keys, key)| {
        if Group(keys, key) != [] {
          GroupExact(keys, key);
          var i := Group(keys, key)[|Group(keys, key)| - 1];
          ConsumedIff(keys, policy, requests, i);
          LastOfGroup(keys, key);
        }
      }
    }
    if Enough(keys, requests) {
      forall i | 0 <= i < |keys| ensures i in consumed {
        ConsumedIff(keys, policy, requests, i);
        GroupBefore(keys, keys[i].value, i);
        assert Times(requests, keys[i].value) >= |Group(keys, keys[i].value)|;
      }
    }
  }

  lemma LastOfGroup(keys: Keys, key: string)
    requires Group(keys, key) != []
    ensures var i := Group(keys, key)[|Group(keys, key)| - 1];
      i < |keys| && |Group(keys[..i], key)| == |Group(keys, key)| - 1
  {
    GroupExact(keys, key);
    var g := Group(keys, key);
    var i := g[|g| - 1];
    GroupHas(keys, key, i);
  }
}
