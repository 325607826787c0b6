/**
  The durable records behind the embedding backfill: the single lease record and the in-flight
  table, as values, with one function per SQL transaction.  A transaction that rolls back is
  `None`.  Tokens stand for the uuid4 lease and request ids.
 */
module BackfillTable {
  import opened Wrappers

  type Row = string
  type Token = string
  type Table = map<Row, Marker>

  datatype Lease = Lease(owner: Token, generation: nat, heartbeat: real)

  /** The handle a worker keeps after acquiring the lease. */
  datatype Holder = Holder(owner: Token, generation: nat)

  datatype Phase = Claimed | Dispatched | Uncertain

  datatype Marker = Marker(owner: Token, generation: nat, phase: Phase, request: Option<Token>)

  const MAINTENANCE_LIMIT: nat := 256

  predicate Owns(lease: Option<Lease>, h: Holder) {
    lease.Some? && lease.value.owner == h.owner && lease.value.generation == h.generation
  }

  predicate OwnedBy(m: Marker, h: Holder) {
    m.owner == h.owner && m.generation == h.generation
  }

  /** The marker is the one this holder dispatched under this very request. */
  predicate Hit(m: Marker, h: Holder, q: Token) {
    OwnedBy(m, h) && m.phase == Dispatched && m.request == Some(q)
  }

  /** Only an expired lease may be taken over. */
  predicate Acquirable(lease: Option<Lease>, ttl: real, now: real) {
    lease.None? || now - lease.value.heartbeat >= ttl
  }

  function NextGeneration(lease: Option<Lease>): nat {
    if lease.None? then 1 else lease.value.generation + 1
  }

  // ---- reservation -------------------------------------------------------

  function ReserveOne(t: Table, h: Holder, r: Row, authorized: set<Row>): Option<Table> {
    if r in authorized then
      if r in t && t[r].phase == Uncertain then
        Some(t[r := Marker(h.owner, h.generation, Uncertain, None)])
      else None
    else if r in t then None
    else Some(t[r := Marker(h.owner, h.generation, Claimed, None)])
  }

  function ReserveAll(t: Table, h: Holder, ids: seq<Row>, authorized: set<Row>): Option<Table> {
    if ids == [] then Some(t)
    else
      match ReserveAll(t, h, ids[..|ids| - 1], authorized)
      case None => None
      case Some(u) => ReserveOne(u, h, ids[|ids| - 1], authorized)
  }

  /** What a reservation that commits has done to every row, named or not. */
  ghost predicate Reserved(t: Table, u: Table, h: Holder, ids: seq<Row>, authorized: set<Row>) {
    && u.Keys == t.Keys + (set r | r in ids)
    && (forall r :: r in t && r !in ids ==> u[r] == t[r])
    && (forall r :: r in ids && r in authorized ==>
          r in t && t[r].phase == Uncertain && u[r] == Marker(h.owner, h.generation, Uncertain, None))
    && (forall r :: r in ids && r !in authorized ==>
          r !in t && u[r] == Marker(h.owner, h.generation, Claimed, None))
  }

  lemma {:induction false} ReserveEffect(t: Table, h: Holder, ids: seq<Row>, authorized: set<Row>)
    ensures ReserveAll(t, h, ids, authorized).Some? ==>
              Reserved(t, ReserveAll(t, h, ids, authorized).value, h, ids, authorized)
  {
    if ids != [] {
      var front, last := ids[..|ids| - 1], ids[|ids| - 1];
      assert ids == front + [last];
      ReserveEffect(t, h, front, authorized);
    }
  }

  /** A reservation can go through: every authorized row is there as uncertain, and every other row has no marker and is
      named once. */
  ghost predicate Reservable(t: Table, ids: seq<Row>, authorized: set<Row>) {
    forall i :: 0 <= i < |ids| ==>
      if ids[i] in authorized then ids[i] in t && t[ids[i]].phase == Uncertain
      else ids[i] !in t && forall j :: 0 <= j < |ids| && j != i ==> ids[j] != ids[i]
  }

  /** And then it does, and only then. */
  lemma {:induction false} ReserveExactly(t: Table, h: Holder, ids: seq<Row>, authorized: set<Row>)
    ensures ReserveAll(t, h, ids, authorized).Some? <==> Reservable(t, ids, authorized)
  {
    if ids != [] {
      var front, last := ids[..|ids| - 1], ids[|ids| - 1];
      assert ids == front + [last];
      ReserveExactly(t, h, front, authorized);
      ReserveEffect(t, h, front, authorized);
      ReservableAppend(t, front, last, authorized);
    }
  }

  lemma ReservableAppend(t: Table, front: seq<Row>, last: Row, authorized: set<Row>)
    ensures Reservable(t, front + [last], authorized) <==>
      && Reservable(t, front, authorized)
      && if last in authorized then last in t && t[last].phase == Uncertain else last !in t && last !in front
  {
    var ids := front + [last];
    assert ids[|front|] == last && forall i :: 0 <= i < |front| ==> ids[i] == front[i];
    assert last in front ==> exists i :: 0 <= i < |front| && front[i] == last;
  }

  lemma {:induction false} ReservePrefixFails(t: Table, h: Holder, ids: seq<Row>, authorized: set<Row>, n: nat)
    requires n <= |ids|
    requires ReserveAll(t, h, ids[..n], authorized).None?
    ensures ReserveAll(t, h, ids, authorized).None?
  {
    if n < |ids| {
      assert ids[..|ids| - 1][..n] == ids[..n];
      ReservePrefixFails(t, h, ids[..|ids| - 1], authorized, n);
    } else {
      assert ids[..n] == ids;
    }
  }

  // ---- dispatch ----------------------------------------------------------

  function PriorPhase(r: Row, authorized: set<Row>): Phase {
    if r in authorized then Uncertain else Claimed
  }

  function DispatchOne(t: Table, h: Holder, r: Row, q: Token, authorized: set<Row>): Option<Table> {
    if r in t && OwnedBy(t[r], h) && t[r].phase == PriorPhase(r, authorized) && t[r].request == None then
      Some(t[r := t[r].(phase := Dispatched, request := Some(q))])
    else None
  }

  function DispatchAll(t: Table, h: Holder, ids: seq<Row>, q: Token, authorized: set<Row>): Option<Table> {
    if ids == [] then Some(t)
    else
      match DispatchAll(t, h, ids[..|ids| - 1], q, authorized)
      case None => None
      case Some(u) => DispatchOne(u, h, ids[|ids| - 1], q, authorized)
  }

  ghost predicate DispatchedExactly(t: Table, u: Table, h: Holder, ids: seq<Row>, q: Token, authorized: set<Row>) {
    && u.Keys == t.Keys
    && (forall r :: r in t && r !in ids ==> u[r] == t[r])
    && (forall r :: r in ids ==>
          && r in t && OwnedBy(t[r], h) && t[r].phase == PriorPhase(r, authorized) && t[r].request == None
          && u[r] == Marker(h.owner, h.generation, Dispatched, Some(q)))
  }

  lemma {:induction false} DispatchEffect(t: Table, h: Holder, ids: seq<Row>, q: Token, authorized: set<Row>)
    ensures DispatchAll(t, h, ids, q, authorized).Some? ==>
              DispatchedExactly(t, DispatchAll(t, h, ids, q, authorized).value, h, ids, q, authorized)
  {
    if ids != [] {
      var front, last := ids[..|ids| - 1], ids[|ids| - 1];
      assert ids == front + [last];
      DispatchEffect(t, h, front, q, authorized);
    }
  }

  /** A dispatch can go through: the holder has reserved every row, no request has it yet, and no row is named twice. */
  ghost predicate Dispatchable(t: Table, h: Holder, ids: seq<Row>, authorized: set<Row>) {
    && (forall i, j :: 0 <= i < j < |ids| ==> ids[i] != ids[j])
    && (forall r :: r in ids ==>
          r in t && t[r] == Marker(h.owner, h.generation, if r in authorized then Uncertain else Claimed, None))
  }

  /** And then it does, and only then. */
  lemma {:induction false} DispatchExactly(t: Table, h: Holder, ids: seq<Row>, q: Token, authorized: set<Row>)
    ensures DispatchAll(t, h, ids, q, authorized).Some? <==> Dispatchable(t, h, ids, authorized)
  {
    if ids != [] {
      var front, last := ids[..|ids| - 1], ids[|ids| - 1];
      assert ids == front + [last];
      DispatchExactly(t, h, front, q, authorized);
      DispatchEffect(t, h, front, q, authorized);
      DispatchableAppend(t, h, front, last, authorized);
    }
  }

  lemma DispatchableAppend(t: Table, h: Holder, front: seq<Row>, last: Row, authorized: set<Row>)
    ensures Dispatchable(t, h, front + [last], authorized) <==>
      && Dispatchable(t, h, front, authorized) && last !in front && last in t
      && t[last] == Marker(h.owner, h.generation, if last in authorized then Uncertain else Claimed, None)
  {
    var ids := front + [last];
    assert ids[|front|] == last && forall i :: 0 <= i < |front| ==> ids[i] == front[i];
    assert last in front ==> exists i :: 0 <= i < |front| && front[i] == last;
    assert forall r :: r in ids <==> r in front || r == last;
  }

  lemma {:induction false} DispatchPrefixFails(t: Table, h: Holder, ids: seq<Row>, q: Token, authorized: set<Row>,
                                               n: nat)
    requires n <= |ids|
    requires DispatchAll(t, h, ids[..n], q, authorized).None?
    ensures DispatchAll(t, h, ids, q, authorized).None?
  {
    if n < |ids| {
      assert ids[..|ids| - 1][..n] == ids[..n];
      DispatchPrefixFails(t, h, ids[..|ids| - 1], q, authorized, n);
    } else {
      assert ids[..n] == ids;
    }
  }

  // ---- recovery and failure transitions ----------------------------------

  /** Rows of one phase that some other lease left behind, at most one maintenance batch of them. */
  ghost predicate Staged(t: Table, h: Holder, phase: Phase, rows: set<Row>) {
    && |rows| <= MAINTENANCE_LIMIT
    && (forall r :: r in rows ==> r in t && t[r].phase == phase && !OwnedBy(t[r], h))
  }

  function RecoverTable(t: Table, claimed: set<Row>, dispatched: set<Row>): Table {
    map r | r in t && r !in claimed :: if r in dispatched then t[r].(phase := Uncertain) else t[r]
  }

  /** Remote acceptance unknown: the request's rows become uncertain and keep their request id. */
  function FailTable(t: Table, h: Holder, q: Token): Table {
    map r | r in t :: if Hit(t[r], h, q) then t[r].(phase := Uncertain) else t[r]
  }

  /** The request was definitively refused: ordinary rows are forgotten, authorized ones stay uncertain. */
  function RejectTable(t: Table, h: Holder, q: Token, authorized: set<Row>): Table {
    map r | r in t && (Hit(t[r], h, q) ==> r in authorized) ::
      if Hit(t[r], h, q) then t[r].(phase := Uncertain, request := None) else t[r]
  }

  /** One row handed back: skipped by the provider, or claimed and never dispatched. */
  function SkipTable(t: Table, h: Holder, r: Row, request: Option<Token>, authorized: set<Row>): Table {
    if r !in t then t
    else if request.None? then
      if r !in authorized && OwnedBy(t[r], h) && t[r].phase == Claimed then t - {r} else t
    else if !Hit(t[r], h, request.value) then t
    else if r in authorized then t[r := t[r].(phase := Uncertain, request := None)]
    else t - {r}
  }

  // ---- what the transitions did to every row -----------------------------

  /** The staged claims are gone, the staged dispatches uncertain under the owner and request they had. */
  ghost predicate Recovered(t: Table, u: Table, claimed: set<Row>, dispatched: set<Row>) {
    && u.Keys == t.Keys - claimed
    && (forall r :: r in u ==>
          u[r] == if r in dispatched then Marker(t[r].owner, t[r].generation, Uncertain, t[r].request) else t[r])
  }

  /** Exactly the rows that this holder dispatched under the request are uncertain, still under it. */
  ghost predicate Failed(t: Table, u: Table, h: Holder, q: Token) {
    && u.Keys == t.Keys
    && (forall r :: r in t ==>
          u[r] == if t[r] == Marker(h.owner, h.generation, Dispatched, Some(q))
                  then Marker(h.owner, h.generation, Uncertain, Some(q)) else t[r])
  }

  /** Of those rows the ordinary ones are gone and the authorized ones uncertain without a request. */
  ghost predicate Refused(t: Table, u: Table, h: Holder, q: Token, authorized: set<Row>) {
    && (forall r :: r in u <==>
          r in t && (t[r] == Marker(h.owner, h.generation, Dispatched, Some(q)) ==> r in authorized))
    && (forall r :: r in u ==>
          u[r] == if t[r] == Marker(h.owner, h.generation, Dispatched, Some(q))
                  then Marker(h.owner, h.generation, Uncertain, None) else t[r])
  }

  /** One row is given back, if it is this holder's: dispatched under the request, or without one claimed and not
      authorized.  An authorized row is uncertain again, an ordinary one gone. */
  ghost predicate GivenBack(t: Table, u: Table, h: Holder, r: Row, request: Option<Token>, authorized: set<Row>) {
    && u - {r} == t - {r}
    && if request.Some? && r in t && t[r] == Marker(h.owner, h.generation, Dispatched, request) then
         if r in authorized then r in u && u[r] == Marker(h.owner, h.generation, Uncertain, None) else r !in u
       else if request.None? && r !in authorized && r in t && t[r].owner == h.owner && t[r].generation == h.generation
               && t[r].phase == Claimed
         then r !in u
       else u == t
  }

  lemma TransitionEffects(t: Table, h: Holder, q: Token, authorized: set<Row>)
    ensures Failed(t, FailTable(t, h, q), h, q)
    ensures Refused(t, RejectTable(t, h, q, authorized), h, q, authorized)
    ensures forall claimed, dispatched :: Recovered(t, RecoverTable(t, claimed, dispatched), claimed, dispatched)
  {
  }

  lemma SkipEffect(t: Table, h: Holder, r: Row, request: Option<Token>, authorized: set<Row>)
    ensures GivenBack(t, SkipTable(t, h, r, request, authorized), h, r, request, authorized)
  {
  }
}
