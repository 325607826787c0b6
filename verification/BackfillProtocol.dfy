/**
  Any number of backfill runs against one store, interleaved step by step.  A run may stop for ever
  between any two of its steps, and a stale run may still try every step.  `sent` and `settled` record
  what the provider was given and what it definitively refused or skipped.
 */
module BackfillProtocol {
  import opened Wrappers
  import opened BackfillTable

  /** One invocation: `selected` is what discovery handed it, `authorized` the operator's retries among it. */
  datatype Run = Run(holder: Holder, discovered: bool, authorized: set<Row>, todo: set<Row>, reserved: set<Row>)

  datatype Request = Request(run: Token, rows: set<Row>)

  datatype State = State(
    lease: Option<Lease>,
    inflight: Table,
    published: set<Row>,
    eligible: set<Row>,
    runs: map<Token, Run>,
    requests: map<Token, Request>,
    sent: set<Token>,
    settled: set<(Token, Row)>)

  datatype Step =
    | AddRows(rows: set<Row>)
    | Acquire(owner: Token, ttl: real, now: real)
    | Renew(run: Token, now: real)
    | Release(run: Token)
    | Recover(run: Token, claimed: set<Row>, dispatched: set<Row>)
    | Discover(run: Token, rows: set<Row>)
    | DiscoverRetry(run: Token, rows: set<Row>)
    | Reserve(run: Token, ids: seq<Row>)
    | Dispatch(run: Token, ids: seq<Row>, request: Token)
    | Send(request: Token)
    | Publish(run: Token, row: Row, request: Token, active: bool)
    | Fail(run: Token, request: Token)
    | Reject(run: Token, request: Token)
    | Skip(run: Token, row: Row, skipped: Option<Token>)

  predicate Init(s: State) {
    && s.lease.None? && s.inflight == map[] && s.published == {} && s.runs == map[]
    && s.requests == map[] && s.sent == {} && s.settled == {}
  }

  /** What ordinary discovery offers. */
  function Pending(s: State): set<Row> {
    s.eligible - s.published - s.inflight.Keys
  }

  /** What discovery offers under explicit operator authorization. */
  function Retryable(s: State): set<Row> {
    set r | r in s.inflight && s.inflight[r].phase == Uncertain && r in s.eligible && r !in s.published
  }

  ghost predicate Enabled(s: State, step: Step) {
    match step
    case AddRows(_) => true
    case Acquire(owner, ttl, now) => owner !in s.runs && Acquirable(s.lease, ttl, now)
    case Renew(u, _) => u in s.runs
    case Release(u) => u in s.runs
    case Recover(u, c, d) =>
      u in s.runs && Staged(s.inflight, s.runs[u].holder, Claimed, c)
        && Staged(s.inflight, s.runs[u].holder, Dispatched, d)
    case Discover(u, rows) => u in s.runs && !s.runs[u].discovered && rows <= Pending(s)
    case DiscoverRetry(u, rows) => u in s.runs && !s.runs[u].discovered && rows <= Retryable(s)
    case Reserve(u, ids) => u in s.runs && (forall r :: r in ids ==> r in s.runs[u].todo)
    case Dispatch(u, ids, q) =>
      u in s.runs && q !in s.requests && ids != [] && (forall r :: r in ids ==> r in s.runs[u].reserved)
    case Send(q) => q in s.requests && q !in s.sent
    case Publish(u, _, q, _) => u in s.runs && q in s.requests && s.requests[q].run == u
    case Fail(u, q) => u in s.runs && q in s.requests && s.requests[q].run == u
    case Reject(u, q) => u in s.runs && q in s.requests && s.requests[q].run == u
    case Skip(u, _, q) => u in s.runs && (q.Some? ==> q.value in s.requests && s.requests[q.value].run == u)
  }

  /** The rows a definitive answer to this request settles: those still dispatched under it. */
  ghost function Settled(s: State, u: Token, q: Token): set<(Token, Row)>
    requires u in s.runs
  {
    set r | r in s.inflight && Hit(s.inflight[r], s.runs[u].holder, q) :: (q, r)
  }

  ghost function Apply(s: State, step: Step): State
    requires Enabled(s, step)
  {
    match step
    case AddRows(rows) => s.(eligible := s.eligible + rows)
    case Acquire(owner, _, now) =>
      var g := NextGeneration(s.lease);
      s.(lease := Some(Lease(owner, g, now)), runs := s.runs[owner := Run(Holder(owner, g), false, {}, {}, {})])
    case Renew(u, now) =>
      if Owns(s.lease, s.runs[u].holder) then s.(lease := Some(s.lease.value.(heartbeat := now))) else s
    case Release(u) =>
      if Owns(s.lease, s.runs[u].holder) then s.(lease := None) else s
    case Recover(u, c, d) =>
      if Owns(s.lease, s.runs[u].holder) then s.(inflight := RecoverTable(s.inflight, c, d)) else s
    case Discover(u, rows) =>
      s.(runs := s.runs[u := s.runs[u].(discovered := true, todo := rows)])
    case DiscoverRetry(u, rows) =>
      s.(runs := s.runs[u := s.runs[u].(discovered := true, authorized := rows, todo := rows)])
    case Reserve(u, ids) =>
      var run := s.runs[u];
      var named := set r | r in ids;
      var table := ReserveAll(s.inflight, run.holder, ids, run.authorized);
      if Owns(s.lease, run.holder) && table.Some? then
        s.(inflight := table.value,
          runs := s.runs[u := run.(todo := run.todo - named, reserved := run.reserved + named)])
      else s.(runs := s.runs[u := run.(todo := run.todo - named)])
    case Dispatch(u, ids, q) =>
      var run := s.runs[u];
      var named := set r | r in ids;
      var table := DispatchAll(s.inflight, run.holder, ids, q, run.authorized);
      if Owns(s.lease, run.holder) && table.Some? then
        s.(inflight := table.value, requests := s.requests[q := Request(u, named)],
           runs := s.runs[u := run.(reserved := run.reserved - named)])
      else s
    case Send(q) => s.(sent := s.sent + {q})
    case Publish(u, r, q, active) =>
      var h := s.runs[u].holder;
      if !(Owns(s.lease, h) && r in s.inflight && Hit(s.inflight[r], h, q)) then s
      else if active then s.(published := s.published + {r}, inflight := s.inflight - {r})
      else s.(lease := None, inflight := FailTable(s.inflight, h, q))
    case Fail(u, q) =>
      var h := s.runs[u].holder;
      if Owns(s.lease, h) then s.(inflight := FailTable(s.inflight, h, q)) else s
    case Reject(u, q) =>
      var run := s.runs[u];
      if Owns(s.lease, run.holder) then
        s.(inflight := RejectTable(s.inflight, run.holder, q, run.authorized), settled := s.settled + Settled(s, u, q))
      else s
    case Skip(u, r, q) =>
      var run := s.runs[u];
      if Owns(s.lease, run.holder) then
        s.(inflight := SkipTable(s.inflight, run.holder, r, q, run.authorized),
           settled := if q.Some? && r in s.inflight && Hit(s.inflight[r], run.holder, q.value)
                      then s.settled + {(q.value, r)} else s.settled)
      else s
  }

  // ---- the invariant -----------------------------------------------------

  /** The row was handed to a request that nothing has definitively refused or skipped. */
  ghost predicate Open(s: State, q: Token, r: Row) {
    q in s.requests && r in s.requests[q].rows && (q, r) !in s.settled
  }

  /** Published, or marked in a state that ordinary discovery and predecessor recovery leave alone. */
  ghost predicate Guarded(s: State, r: Row) {
    r in s.published || (r in s.inflight && s.inflight[r].phase != Claimed)
  }

  /** The request carried this row as an operator-authorized retry. */
  ghost predicate Retried(s: State, q: Token, r: Row) {
    q in s.requests && s.requests[q].run in s.runs && r in s.runs[s.requests[q].run].authorized
  }

  ghost predicate WellFormed(s: State) {
    && (forall u :: u in s.runs ==> s.runs[u].holder.owner == u)
    && (forall q :: q in s.requests ==> s.requests[q].run in s.runs)
    && (s.lease.Some? ==> s.lease.value.owner in s.runs && Owns(s.lease, s.runs[s.lease.value.owner].holder))
    && s.sent <= s.requests.Keys
  }

  ghost predicate OpenRowsGuarded(s: State) {
    forall q, r :: Open(s, q, r) ==> Guarded(s, r)
  }

  ghost predicate MarkersUnpublished(s: State) {
    forall r :: r in s.inflight ==> r !in s.published
  }

  /** A dispatched marker names its request; an ordinary one is the row's only open request. */
  ghost predicate DispatchedSole(s: State) {
    forall r :: r in s.inflight && s.inflight[r].phase == Dispatched ==>
      && s.inflight[r].request.Some?
      && var q := s.inflight[r].request.value;
        && q in s.requests && r in s.requests[q].rows && s.requests[q].run == s.inflight[r].owner
        && (!Retried(s, q, r) ==> forall p :: p != q ==> !Open(s, p, r))
  }

  /** Bookkeeping of each run: what it has still to reserve or dispatch it has never dispatched. */
  ghost predicate RunsConsistent(s: State)
    requires WellFormed(s)
  {
    && (forall u :: u in s.runs && !s.runs[u].discovered ==> s.runs[u].todo == {} && s.runs[u].reserved == {})
    && (forall u :: u in s.runs ==> s.runs[u].todo !! s.runs[u].reserved)
    && (forall r :: r in s.inflight ==>
          && s.inflight[r].owner in s.runs
          && s.runs[s.inflight[r].owner].discovered && r !in s.runs[s.inflight[r].owner].todo)
    && (forall q :: q in s.requests ==> s.runs[s.requests[q].run].discovered)
    && (forall q, r :: q in s.requests && r in s.requests[q].rows ==>
          r !in s.runs[s.requests[q].run].todo && r !in s.runs[s.requests[q].run].reserved)
  }

  /** The current holder never has a published row left to reserve. */
  ghost predicate HolderTodoUnpublished(s: State)
    requires WellFormed(s)
  {
    s.lease.Some? ==> s.runs[s.lease.value.owner].todo !! s.published
  }

  ghost predicate OneRequestPerRun(s: State) {
    forall p, q, r ::
      p in s.requests && q in s.requests && p != q && r in s.requests[p].rows && r in s.requests[q].rows ==>
      s.requests[p].run != s.requests[q].run
  }

  ghost predicate OneOpenOrdinary(s: State) {
    forall p, q, r :: Open(s, p, r) && Open(s, q, r) && !Retried(s, p, r) && !Retried(s, q, r) ==> p == q
  }

  ghost predicate Inv(s: State) {
    && WellFormed(s)
    && OpenRowsGuarded(s)
    && MarkersUnpublished(s)
    && DispatchedSole(s)
    && RunsConsistent(s)
    && HolderTodoUnpublished(s)
    && OneRequestPerRun(s)
    && OneOpenOrdinary(s)
  }

  // ---- every step keeps it -----------------------------------------------

  lemma InitHolds(s: State)
    requires Init(s)
    ensures Inv(s)
  {
  }

  /** Runs and requests stand still; markers only move towards uncertain or go; a row loses its
      marker only when it is published or has no open request left. */
  ghost predicate MarkersRetreat(s: State, t: State) {
    && t.runs == s.runs && t.requests == s.requests && t.sent <= t.requests.Keys && s.settled <= t.settled
    && (t.lease.Some? ==>
          && s.lease.Some? && t.lease.value.owner == s.lease.value.owner
          && t.lease.value.generation == s.lease.value.generation)
    && (forall r :: r in t.inflight ==>
          && r in s.inflight && t.inflight[r].owner == s.inflight[r].owner && r !in t.published
          && (t.inflight[r] == s.inflight[r]
            || (t.inflight[r].phase == Uncertain && s.inflight[r].phase == Dispatched)))
    && (forall r :: r in s.published ==> r in t.published)
    && (forall r :: r in t.published && r !in s.published ==>
          r in s.inflight && s.lease.Some? && s.inflight[r].owner == s.lease.value.owner)
    && (forall r :: r in s.inflight && r !in t.inflight && r !in t.published ==> forall q :: !Open(t, q, r))
  }

  lemma MarkersRetreatKeeps(s: State, t: State)
    requires Inv(s) && MarkersRetreat(s, t)
    ensures Inv(t)
  {
    forall q, r | Open(t, q, r)
      ensures Open(s, q, r) && Guarded(t, r)
    {
      assert Open(s, q, r) && Guarded(s, r);
    }
    forall q, r
      ensures Retried(t, q, r) == Retried(s, q, r)
    {
    }
    assert OneOpenOrdinary(t);
    assert DispatchedSole(t);
    assert RunsConsistent(t);
    assert HolderTodoUnpublished(t);
  }

  lemma AcquireKeeps(s: State, step: Step)
    requires Inv(s) && Enabled(s, step) && step.Acquire?
    ensures Inv(Apply(s, step))
  {
    var t := Apply(s, step);
    SameRequests(s, t);
  }

  /** With the requests and every authorization as they were, the same requests are open. */
  lemma SameRequests(s: State, t: State)
    requires WellFormed(s) && t.requests == s.requests && t.settled == s.settled
    requires forall q :: q in s.requests ==>
      s.requests[q].run in t.runs && t.runs[s.requests[q].run].authorized == s.runs[s.requests[q].run].authorized
    ensures forall q, r :: Open(t, q, r) == Open(s, q, r)
    ensures forall q, r :: Retried(t, q, r) == Retried(s, q, r)
  {
  }

  lemma DiscoverKeeps(s: State, step: Step)
    requires Inv(s) && Enabled(s, step) && (step.Discover? || step.DiscoverRetry?)
    ensures Inv(Apply(s, step))
  {
    var t := Apply(s, step);
    SameRequests(s, t);
  }

  /** A claim is written before dispatch, so nothing open stands behind it. */
  lemma ClaimedNotOpen(s: State, q: Token, r: Row)
    requires Inv(s) && r in s.inflight && s.inflight[r].phase == Claimed
    ensures !Open(s, q, r)
  {
    assert !Guarded(s, r);
  }

  lemma RecoverKeeps(s: State, step: Step)
    requires Inv(s) && Enabled(s, step) && step.Recover?
    ensures Inv(Apply(s, step))
  {
    var t := Apply(s, step);
    forall q, r | r in s.inflight && r !in t.inflight
      ensures !Open(t, q, r)
    {
      ClaimedNotOpen(s, q, r);
    }
    MarkersRetreatKeeps(s, t);
  }

  lemma ReserveKeeps(s: State, step: Step)
    requires Inv(s) && Enabled(s, step) && step.Reserve?
    ensures Inv(Apply(s, step))
  {
    var t := Apply(s, step);
    var u, run := step.run, s.runs[step.run];
    ReserveEffect(s.inflight, run.holder, step.ids, run.authorized);
    if Owns(s.lease, run.holder) && ReserveAll(s.inflight, run.holder, step.ids, run.authorized).Some? {
      ReservationKeeps(s, t, u, step.ids);
    } else {
      SameRequests(s, t);
    }
  }

  lemma ReservationKeeps(s: State, t: State, u: Token, ids: seq<Row>)
    requires Inv(s) && u in s.runs && Owns(s.lease, s.runs[u].holder)
    requires forall r :: r in ids ==> r in s.runs[u].todo
    requires Reserved(s.inflight, t.inflight, s.runs[u].holder, ids, s.runs[u].authorized)
    requires var named := set r | r in ids;
             t == s.(inflight := t.inflight, runs := s.runs[u := s.runs[u].(todo := s.runs[u].todo - named,
                                                                           reserved := s.runs[u].reserved + named)])
    ensures Inv(t)
  {
    SameRequests(s, t);
    ReservationGuards(s, t, u, ids);
    ReservationBooks(s, t, u, ids);
  }

  lemma ReservationGuards(s: State, t: State, u: Token, ids: seq<Row>)
    requires Inv(s) && u in s.runs && Reserved(s.inflight, t.inflight, s.runs[u].holder, ids, s.runs[u].authorized)
    requires t.published == s.published && t.requests == s.requests
    requires forall q, r :: Open(t, q, r) == Open(s, q, r)
    requires forall q, r :: Retried(t, q, r) == Retried(s, q, r)
    ensures OpenRowsGuarded(t) && DispatchedSole(t) && OneOpenOrdinary(t)
  {
    forall q, r | Open(t, q, r)
      ensures Guarded(t, r)
    {
      assert Guarded(s, r);
    }
    forall r | r in t.inflight && t.inflight[r].phase == Dispatched
      ensures r in s.inflight && t.inflight[r] == s.inflight[r]
    {
    }
  }

  lemma ReservationBooks(s: State, t: State, u: Token, ids: seq<Row>)
    requires Inv(s) && u in s.runs && Owns(s.lease, s.runs[u].holder)
    requires forall r :: r in ids ==> r in s.runs[u].todo
    requires Reserved(s.inflight, t.inflight, s.runs[u].holder, ids, s.runs[u].authorized)
    requires var named := set r | r in ids;
             t == s.(inflight := t.inflight, runs := s.runs[u := s.runs[u].(todo := s.runs[u].todo - named,
                                                                           reserved := s.runs[u].reserved + named)])
    ensures WellFormed(t) && MarkersUnpublished(t) && RunsConsistent(t) && HolderTodoUnpublished(t)
  {
    forall r | r in t.inflight
      ensures r !in t.published && t.inflight[r].owner in t.runs
      ensures t.runs[t.inflight[r].owner].discovered && r !in t.runs[t.inflight[r].owner].todo
    {
      if r !in ids {
        assert t.inflight[r] == s.inflight[r];
      }
    }
  }

  lemma DispatchKeeps(s: State, step: Step)
    requires Inv(s) && Enabled(s, step) && step.Dispatch?
    ensures Inv(Apply(s, step))
  {
    var t := Apply(s, step);
    var u, run, q := step.run, s.runs[step.run], step.request;
    DispatchEffect(s.inflight, run.holder, step.ids, q, run.authorized);
    if Owns(s.lease, run.holder) && DispatchAll(s.inflight, run.holder, step.ids, q, run.authorized).Some? {
      forall p, r | p != q
        ensures Open(t, p, r) == Open(s, p, r) && Retried(t, p, r) == Retried(s, p, r)
      {
      }
      forall p, r | r in step.ids && r !in run.authorized
        ensures !Open(s, p, r)
      {
        ClaimedNotOpen(s, p, r);
      }
      DispatchGuards(s, t, u, step.ids, q);
      DispatchBooks(s, t, u, step.ids, q);
      DispatchOnce(s, t, u, step.ids, q);
    }
  }

  lemma DispatchGuards(s: State, t: State, u: Token, ids: seq<Row>, q: Token)
    requires Inv(s) && u in s.runs && q !in s.requests
    requires DispatchedExactly(s.inflight, t.inflight, s.runs[u].holder, ids, q, s.runs[u].authorized)
    requires t.published == s.published && t.requests == s.requests[q := Request(u, set r | r in ids)]
    requires u in t.runs && t.runs[u].authorized == s.runs[u].authorized
    requires forall p, r :: p != q ==> Open(t, p, r) == Open(s, p, r) && Retried(t, p, r) == Retried(s, p, r)
    requires forall p, r :: r in ids && r !in s.runs[u].authorized ==> !Open(s, p, r)
    ensures OpenRowsGuarded(t) && DispatchedSole(t) && OneOpenOrdinary(t)
  {
    forall p, r | Open(t, p, r)
      ensures Guarded(t, r)
    {
      if p != q {
        assert Open(s, p, r) && Guarded(s, r);
      }
    }
    forall r | r in ids
      ensures Retried(t, q, r) <==> r in s.runs[u].authorized
    {
    }
    forall p, r | p != q && Open(t, p, r)
      ensures r in ids ==> Retried(t, q, r)
    {
    }
  }

  lemma DispatchBooks(s: State, t: State, u: Token, ids: seq<Row>, q: Token)
    requires Inv(s) && u in s.runs && q !in s.requests && ids != []
    requires forall r :: r in ids ==> r in s.runs[u].reserved
    requires DispatchedExactly(s.inflight, t.inflight, s.runs[u].holder, ids, q, s.runs[u].authorized)
    requires var named := set r | r in ids;
             t == s.(inflight := t.inflight, requests := s.requests[q := Request(u, named)],
                     runs := s.runs[u := s.runs[u].(reserved := s.runs[u].reserved - named)])
    ensures WellFormed(t) && MarkersUnpublished(t) && RunsConsistent(t) && HolderTodoUnpublished(t)
  {
    forall r | r in t.inflight
      ensures r in s.inflight && t.inflight[r].owner == s.inflight[r].owner
    {
    }
    assert ids[0] in s.runs[u].reserved;
  }

  /** A run dispatches only what it has reserved and not dispatched, so never a row twice. */
  lemma DispatchOnce(s: State, t: State, u: Token, ids: seq<Row>, q: Token)
    requires WellFormed(s) && RunsConsistent(s) && OneRequestPerRun(s) && u in s.runs && q !in s.requests
    requires forall r :: r in ids ==> r in s.runs[u].reserved
    requires t.requests == s.requests[q := Request(u, set r | r in ids)]
    ensures OneRequestPerRun(t)
  {
  }

  lemma PublishKeeps(s: State, step: Step)
    requires Inv(s) && Enabled(s, step) && step.Publish?
    ensures Inv(Apply(s, step))
  {
    MarkersRetreatKeeps(s, Apply(s, step));
  }

  lemma FailKeeps(s: State, step: Step)
    requires Inv(s) && Enabled(s, step) && (step.Fail? || step.Renew? || step.Release? || step.AddRows? || step.Send?)
    ensures Inv(Apply(s, step))
  {
    MarkersRetreatKeeps(s, Apply(s, step));
  }

  lemma RejectKeeps(s: State, step: Step)
    requires Inv(s) && Enabled(s, step) && step.Reject?
    ensures Inv(Apply(s, step))
  {
    var t := Apply(s, step);
    forall p, r | r in s.inflight && r !in t.inflight
      ensures !Open(t, p, r)
    {
      if p != step.request {
        OrdinaryHitSole(s, step.run, step.request, r, p);
      }
    }
    MarkersRetreatKeeps(s, t);
  }

  /** While an ordinary row is dispatched under one request, no other request of it is open. */
  lemma OrdinaryHitSole(s: State, u: Token, q: Token, r: Row, p: Token)
    requires Inv(s) && u in s.runs && r in s.inflight && Hit(s.inflight[r], s.runs[u].holder, q)
    requires r !in s.runs[u].authorized && p != q
    ensures !Open(s, p, r)
  {
    assert !Retried(s, q, r);
  }

  lemma SkipKeeps(s: State, step: Step)
    requires Inv(s) && Enabled(s, step) && step.Skip?
    ensures Inv(Apply(s, step))
  {
    var t := Apply(s, step);
    forall p, r | r in s.inflight && r !in t.inflight
      ensures !Open(t, p, r)
    {
      if step.skipped.None? {
        ClaimedNotOpen(s, p, r);
      } else if p != step.skipped.value {
        OrdinaryHitSole(s, step.run, step.skipped.value, r, p);
      }
    }
    MarkersRetreatKeeps(s, t);
  }

  lemma StepKeeps(s: State, step: Step)
    requires Inv(s) && Enabled(s, step)
    ensures Inv(Apply(s, step))
  {
    match step
    case Acquire(_, _, _) => AcquireKeeps(s, step);
    case Recover(_, _, _) => RecoverKeeps(s, step);
    case Discover(_, _) => DiscoverKeeps(s, step);
    case DiscoverRetry(_, _) => DiscoverKeeps(s, step);
    case Reserve(_, _) => ReserveKeeps(s, step);
    case Dispatch(_, _, _) => DispatchKeeps(s, step);
    case Publish(_, _, _, _) => PublishKeeps(s, step);
    case Reject(_, _) => RejectKeeps(s, step);
    case Skip(_, _, _) => SkipKeeps(s, step);
    case _ => FailKeeps(s, step);
  }
}
