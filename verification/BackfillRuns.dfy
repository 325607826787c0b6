/**
  Whole runs of the backfill protocol: no silent resend, a bound on sends, and stale holders fenced.
 */
module BackfillRuns {
  import opened Wrappers
  import opened BackfillTable
  import opened BackfillProtocol

  /** `states` is what the store and the runs went through while `steps` were taken one after another. */
  ghost predicate Behavior(states: seq<State>, steps: seq<Step>) {
    && |states| == |steps| + 1
    && Init(states[0])
    && (forall i :: 0 <= i < |steps| ==> Enabled(states[i], steps[i]) && states[i + 1] == Apply(states[i], steps[i]))
  }

  lemma {:induction false} BehaviorKeeps(states: seq<State>, steps: seq<Step>, i: nat)
    requires Behavior(states, steps) && i < |states|
    ensures Inv(states[i])
  {
    if i == 0 {
      InitHolds(states[0]);
    } else {
      BehaviorKeeps(states, steps, i - 1);
      StepKeeps(states[i - 1], steps[i - 1]);
    }
  }

  /** No silent resend: a row some request carried, and nobody definitively refused or skipped, is
      published or still marked, so ordinary discovery never offers it. */
  lemma NoSilentResend(states: seq<State>, steps: seq<Step>, i: nat, q: Token, r: Row)
    requires Behavior(states, steps) && i < |states| && Open(states[i], q, r)
    ensures Guarded(states[i], r) && r !in Pending(states[i])
  {
    BehaviorKeeps(states, steps, i);
    assert Guarded(states[i], r);
  }

  /** Nor can a run that selected the row earlier reserve it as ordinary work now. */
  lemma StaleSelectionRefused(states: seq<State>, steps: seq<Step>, i: nat, q: Token, r: Row, u: Token)
    requires Behavior(states, steps) && i < |states| && Open(states[i], q, r)
    requires u in states[i].runs && Owns(states[i].lease, states[i].runs[u].holder)
    requires r in states[i].runs[u].todo && r !in states[i].runs[u].authorized
    ensures ReserveAll(states[i].inflight, states[i].runs[u].holder, [r], states[i].runs[u].authorized).None?
  {
    BehaviorKeeps(states, steps, i);
    var s := states[i];
    assert Guarded(s, r) && u == s.lease.value.owner;
    assert [r][..0] == [];
  }

  ghost function Sends(s: State, r: Row): set<Token> {
    set q | q in s.sent && q in s.requests && r in s.requests[q].rows
  }

  /** Requests in which this row was definitively refused or skipped. */
  ghost function Refusals(s: State, r: Row): set<Token> {
    set q | q in s.requests && (q, r) in s.settled
  }

  /** Runs an operator explicitly authorized to retry this row. */
  ghost function Authorizations(s: State, r: Row): set<Token> {
    set u | u in s.runs && r in s.runs[u].authorized
  }

  lemma {:induction false} SubsetBound<T>(a: set<T>, b: set<T>)
    requires a <= b
    ensures |a| <= |b|
  {
    if a != {} {
      var x :| x in a;
      SubsetBound(a - {x}, b - {x});
    }
  }

  lemma AtMostOne<T>(a: set<T>)
    requires forall x, y :: x in a && y in a ==> x == y
    ensures |a| <= 1
  {
    if a != {} {
      var x :| x in a;
      assert a == {x};
    }
  }

  lemma {:induction false} RetriesBounded(s: State, r: Row, retries: set<Token>, runs: set<Token>)
    requires Inv(s)
    requires forall q :: q in retries ==> q in s.requests && r in s.requests[q].rows && s.requests[q].run in runs
    ensures |retries| <= |runs|
  {
    if retries != {} {
      var q :| q in retries;
      forall p | p in retries - {q}
        ensures s.requests[p].run in runs - {s.requests[q].run}
      {
        assert s.requests[p].run != s.requests[q].run;
      }
      RetriesBounded(s, r, retries - {q}, runs - {s.requests[q].run});
    }
  }

  /** Every run of the protocol sends a row at most once, plus once per definitive refusal or skip,
      plus once per explicit operator authorization. */
  lemma SendsBounded(states: seq<State>, steps: seq<Step>, i: nat, r: Row)
    requires Behavior(states, steps) && i < |states|
    ensures |Sends(states[i], r)| <= 1 + |Refusals(states[i], r)| + |Authorizations(states[i], r)|
  {
    BehaviorKeeps(states, steps, i);
    var s := states[i];
    var retries := set q | q in Sends(s, r) && Retried(s, q, r);
    var open := set q | q in Sends(s, r) && !Retried(s, q, r) && Open(s, q, r);
    RetriesBounded(s, r, retries, Authorizations(s, r));
    AtMostOne(open);
    var cover := retries + open + Refusals(s, r);
    assert Sends(s, r) <= cover;
    SubsetBound(Sends(s, r), cover);
  }

  // ---- fencing -----------------------------------------------------------

  /** The run that takes a step, if a run does. */
  function Actor(step: Step): Option<Token> {
    match step
    case AddRows(_) => None
    case Acquire(_, _, _) => None
    case Send(_) => None
    case _ => Some(step.run)
  }

  lemma AtMostOneHolder(states: seq<State>, steps: seq<Step>, i: nat, u: Token, v: Token)
    requires Behavior(states, steps) && i < |states| && u in states[i].runs && v in states[i].runs
    requires Owns(states[i].lease, states[i].runs[u].holder) && Owns(states[i].lease, states[i].runs[v].holder)
    ensures u == v
  {
    BehaviorKeeps(states, steps, i);
    assert states[i].runs[u].holder.owner == u;
  }

  lemma FencedStep(s: State, step: Step, u: Token)
    requires WellFormed(s) && Enabled(s, step) && u in s.runs && !Owns(s.lease, s.runs[u].holder)
    ensures u in Apply(s, step).runs && Apply(s, step).runs[u].holder == s.runs[u].holder
    ensures !Owns(Apply(s, step).lease, s.runs[u].holder)
    ensures Actor(step) == Some(u) ==>
              var t := Apply(s, step);
              t.lease == s.lease && t.inflight == s.inflight && t.published == s.published
  {
  }

  /** The run has lost the lease for good, and its own step here changes no durable record. */
  ghost predicate Fenced(s: State, t: State, step: Step, u: Token) {
    && u in s.runs && u in t.runs && t.runs[u].holder == s.runs[u].holder && !Owns(t.lease, t.runs[u].holder)
    && (Actor(step) == Some(u) ==> t.lease == s.lease && t.inflight == s.inflight && t.published == s.published)
  }

  lemma FencedNext(states: seq<State>, steps: seq<Step>, i: nat, u: Token)
    requires Behavior(states, steps) && i < |steps|
    requires u in states[i].runs && !Owns(states[i].lease, states[i].runs[u].holder)
    ensures Fenced(states[i], states[i + 1], steps[i], u)
  {
    BehaviorKeeps(states, steps, i);
    FencedStep(states[i], steps[i], u);
  }

  /** Once a run has lost the lease it never holds it again, and whatever it tries leaves the lease
      record, the in-flight table and the published vectors exactly as they were. */
  lemma {:induction false} StaleHolderFenced(states: seq<State>, steps: seq<Step>, i: nat, j: nat, u: Token)
    requires Behavior(states, steps) && i <= j < |steps|
    requires u in states[i].runs && !Owns(states[i].lease, states[i].runs[u].holder)
    ensures Fenced(states[j], states[j + 1], steps[j], u)
    ensures states[j].runs[u].holder == states[i].runs[u].holder
  {
    if i < j {
      StaleHolderFenced(states, steps, i, j - 1, u);
    }
    FencedNext(states, steps, j, u);
  }

  // ---- no row is stuck ---------------------------------------------------

  /** Steps from any state. */
  ghost predicate Path(states: seq<State>, steps: seq<Step>) {
    && |states| == |steps| + 1
    && (forall i :: 0 <= i < |steps| ==> Enabled(states[i], steps[i]) && states[i + 1] == Apply(states[i], steps[i]))
  }

  /** One path after the other. */
  lemma Join(states: seq<State>, steps: seq<Step>, later: seq<State>, more: seq<Step>) returns (all: seq<State>)
    requires Path(states, steps) && Path(later, more) && later[0] == states[|steps|]
    ensures Path(all, steps + more) && all[0] == states[0] && all[|all| - 1] == later[|more|]
  {
    all := states + later[1..];
    forall i | 0 <= i < |steps + more|
      ensures Enabled(all[i], (steps + more)[i]) && all[i + 1] == Apply(all[i], (steps + more)[i])
    {
      if i < |steps| {
        assert Enabled(states[i], steps[i]) && all[i] == states[i] && all[i + 1] == states[i + 1];
      } else {
        var k := i - |steps|;
        assert Enabled(later[k], more[k]) && all[i] == later[k] && all[i + 1] == later[k + 1];
      }
    }
  }

  /** What a single new run does for one row: it takes the lease, recovers what a predecessor left of the row, selects,
      reserves, dispatches, sends and publishes it. */
  function Rescue(s: State, r: Row, u: Token, q: Token, ttl: real, now: real): seq<Step> {
    Takes(s, r, u, ttl, now) + Selects(s, r, u) + Publishes(r, u, q)
  }

  function Takes(s: State, r: Row, u: Token, ttl: real, now: real): seq<Step> {
    var phase := if r in s.inflight then Some(s.inflight[r].phase) else None;
    [Acquire(u, ttl, now),
      Recover(u, if phase == Some(Claimed) then {r} else {}, if phase == Some(Dispatched) then {r} else {})]
  }

  function Selects(s: State, r: Row, u: Token): seq<Step> {
    [if r in s.inflight && s.inflight[r].phase != Claimed then DiscoverRetry(u, {r}) else Discover(u, {r}),
      Reserve(u, [r])]
  }

  function Publishes(r: Row, u: Token, q: Token): seq<Step> {
    [Dispatch(u, [r], q), Send(q), Publish(u, r, q, true)]
  }

  /** The run holds the lease and has not selected anything; the row is unmarked or uncertain. */
  ghost predicate Ready(s: State, r: Row, u: Token) {
    && u in s.runs && s.runs[u].todo == {} && s.runs[u].reserved == {} && s.runs[u].authorized == {}
    && !s.runs[u].discovered && Owns(s.lease, s.runs[u].holder)
    && r in s.eligible && r !in s.published && (r in s.inflight ==> s.inflight[r].phase == Uncertain)
  }

  /** The run has reserved the row. */
  ghost predicate Holds(s: State, r: Row, u: Token) {
    && u in s.runs && s.runs[u].reserved == {r} && Owns(s.lease, s.runs[u].holder) && r in s.inflight
    && s.inflight[r] == Marker(s.runs[u].holder.owner, s.runs[u].holder.generation,
                               if r in s.runs[u].authorized then Uncertain else Claimed, None)
  }

  lemma TakesPath(s: State, r: Row, u: Token, ttl: real, now: real) returns (path: seq<State>)
    requires Inv(s) && r in s.eligible && r !in s.published && u !in s.runs
    requires s.lease.None? || s.lease.value.heartbeat + ttl <= now
    ensures Path(path, Takes(s, r, u, ttl, now)) && path[0] == s
    ensures var t := path[2];
      && Ready(t, r, u) && t.requests == s.requests && t.sent == s.sent
      && (r in t.inflight <==> r in s.inflight && s.inflight[r].phase != Claimed)
  {
    var steps := Takes(s, r, u, ttl, now);
    var s1 := Apply(s, steps[0]);
    assert r in s.inflight ==> s.inflight[r].owner in s.runs;
    assert Enabled(s, steps[0]) && s1.inflight == s.inflight && Enabled(s1, steps[1]);
    TransitionEffects(s1.inflight, s1.runs[u].holder, u, {});
    var s2 := Apply(s1, steps[1]);
    assert Recovered(s1.inflight, s2.inflight, steps[1].claimed, steps[1].dispatched);
    path := [s, s1, s2];
  }

  lemma SelectsPath(s: State, r: Row, u: Token, steps: seq<Step>) returns (path: seq<State>)
    requires Ready(s, r, u)
    requires steps == [if r in s.inflight then DiscoverRetry(u, {r}) else Discover(u, {r}), Reserve(u, [r])]
    ensures Path(path, steps) && path[0] == s
    ensures Holds(path[2], r, u) && path[2].requests == s.requests && path[2].sent == s.sent
  {
    var s3 := Apply(s, steps[0]);
    var h, authorized := s3.runs[u].holder, s3.runs[u].authorized;
    ReserveExactly(s3.inflight, h, [r], authorized);
    ReserveEffect(s3.inflight, h, [r], authorized);
    assert Reservable(s3.inflight, [r], authorized) && (set x | x in [r]) == {r};
    assert r in [r];
    path := [s, s3, Apply(s3, steps[1])];
  }

  lemma PublishesPath(s: State, r: Row, u: Token, q: Token) returns (path: seq<State>)
    requires Holds(s, r, u) && q !in s.requests && q !in s.sent
    ensures Path(path, Publishes(r, u, q)) && path[0] == s && r in path[3].published && q in path[3].sent
  {
    var h, authorized := s.runs[u].holder, s.runs[u].authorized;
    DispatchExactly(s.inflight, h, [r], q, authorized);
    DispatchEffect(s.inflight, h, [r], q, authorized);
    assert Dispatchable(s.inflight, h, [r], authorized) && r in [r];
    var s5 := Apply(s, Dispatch(u, [r], q));
    var s6 := Apply(s5, Send(q));
    path := [s, s5, s6, Apply(s6, Publish(u, r, q, true))];
  }

  /** In every state that runs reach, however they were cut, a row that is eligible and not published can still be
      published by one new run as soon as the lease can be had. */
  lemma NoRowStuck(states: seq<State>, steps: seq<Step>, i: nat, r: Row, u: Token, q: Token, ttl: real, now: real)
    returns (path: seq<State>)
    requires Behavior(states, steps) && i < |states|
    requires r in states[i].eligible && r !in states[i].published
    requires states[i].lease.None? || states[i].lease.value.heartbeat + ttl <= now
    requires u !in states[i].runs && q !in states[i].requests
    ensures Path(path, Rescue(states[i], r, u, q, ttl, now)) && path[0] == states[i]
    ensures r in path[|path| - 1].published && q in path[|path| - 1].sent
  {
    BehaviorKeeps(states, steps, i);
    var s := states[i];
    path := TakesPath(s, r, u, ttl, now);
    var later := SelectsPath(path[2], r, u, Selects(s, r, u));
    path := Join(path, Takes(s, r, u, ttl, now), later, Selects(s, r, u));
    later := PublishesPath(path[4], r, u, q);
    path := Join(path, Takes(s, r, u, ttl, now) + Selects(s, r, u), later, Publishes(r, u, q));
  }
}
