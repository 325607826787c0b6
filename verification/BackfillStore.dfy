/**
  The backfill's database connection: each method is one `BEGIN IMMEDIATE` transaction on the lease
  record, the in-flight table and the published vectors, proved against the functions on tables.
 */
module BackfillStore {
  import opened Wrappers
  import opened BackfillTable

  /** The request's rows among `undone` are back to uncertain; every other marker is as it was. */
  ghost predicate AuthorizedUndone(before: Table, t: Table, h: Holder, q: Token, undone: set<Row>) {
    && t.Keys == before.Keys
    && (forall r :: r in before ==>
          t[r] == if Hit(before[r], h, q) && r in undone
                  then before[r].(phase := Uncertain, request := None) else before[r])
  }

  function DeleteRequest(t: Table, h: Holder, q: Token, kept: set<Row>): Table {
    map r | r in t && (Hit(t[r], h, q) ==> r in kept) :: t[r]
  }

  method Pick(rows: set<Row>) returns (r: Row)
    requires rows != {}
    ensures r in rows
  {
    r :| r in rows;
  }

  class Store {
    var lease: Option<Lease>
    var inflight: Table
    var published: set<Row>

    constructor ()
      ensures lease == None && inflight == map[] && published == {}
    {
      lease, inflight, published := None, map[], {};
    }

    method Acquire(owner: Token, ttl: real, now: real) returns (h: Option<Holder>)
      modifies this`lease
      ensures h.Some? <==> old(lease).None? || old(lease).value.heartbeat + ttl <= now
      ensures h.Some? ==> h.value == Holder(owner, if old(lease).None? then 1 else old(lease).value.generation + 1)
      ensures h.Some? ==> lease == Some(Lease(owner, h.value.generation, now))
      ensures h.Some? ==> forall g :: Owns(lease, g) <==> g == h.value
      ensures h.None? ==> lease == old(lease)
    {
      var generation: nat := 1;
      if lease.Some? {
        if now - lease.value.heartbeat < ttl {
          return None;
        }
        generation := lease.value.generation + 1;
      }
      lease := Some(Lease(owner, generation, now));
      h := Some(Holder(owner, generation));
    }

    /** `recent` is the caller's own clock: inside the heartbeat interval nothing is read or written. */
    method Renew(h: Holder, now: real, recent: bool) returns (held: bool)
      modifies this`lease
      ensures held <==> recent || Owns(old(lease), h)
      ensures lease == if !recent && Owns(old(lease), h)
                       then Some(Lease(h.owner, h.generation, now)) else old(lease)
    {
      if recent {
        return true;
      }
      held := Owns(lease, h);
      if held {
        lease := Some(Lease(h.owner, h.generation, now));
      }
    }

    method Release(h: Holder)
      modifies this`lease
      ensures lease == if Owns(old(lease), h) then None else old(lease)
    {
      if Owns(lease, h) {
        lease := None;
      }
    }

    /** `claimed` and `dispatched` are the staged predecessor rows, as the two bounded selects return them. */
    method Recover(h: Holder, claimed: set<Row>, dispatched: set<Row>) returns (ok: bool)
      requires Staged(inflight, h, Claimed, claimed) && Staged(inflight, h, Dispatched, dispatched)
      modifies this`inflight
      ensures ok <==> Owns(lease, h)
      ensures inflight == if ok then RecoverTable(old(inflight), claimed, dispatched) else old(inflight)
      ensures ok ==> Recovered(old(inflight), inflight, claimed, dispatched)
    {
      if !Owns(lease, h) {
        return false;
      }
      inflight := inflight - claimed;
      inflight := map r | r in inflight :: if r in dispatched then inflight[r].(phase := Uncertain) else inflight[r];
      assert inflight == RecoverTable(old(inflight), claimed, dispatched);
      ok := true;
    }

    method MarkInflight(h: Holder, ids: seq<Row>, authorized: set<Row>) returns (ok: bool)
      modifies this`inflight
      ensures ok <==> Owns(lease, h) && Reservable(old(inflight), ids, authorized)
      ensures ok ==> Reserved(old(inflight), inflight, h, ids, authorized)
      ensures ok ==> ReserveAll(old(inflight), h, ids, authorized) == Some(inflight)
      ensures !ok ==> inflight == old(inflight)
    {
      if !Owns(lease, h) {
        return false;
      }
      var before := inflight;
      ReserveExactly(before, h, ids, authorized);
      ReserveEffect(before, h, ids, authorized);
      for i := 0 to |ids|
        invariant ReserveAll(before, h, ids[..i], authorized) == Some(inflight)
      {
        var r := ids[i];
        assert ids[..i + 1][..i] == ids[..i];
        var absent := r !in inflight;
        if (r in authorized && (absent || inflight[r].phase != Uncertain)) || (r !in authorized && !absent) {
          ReservePrefixFails(before, h, ids, authorized, i + 1);
          inflight := before;
          return false;
        }
        inflight := inflight[r := Marker(h.owner, h.generation, if r in authorized then Uncertain else Claimed, None)];
      }
      assert ids[..|ids|] == ids;
      ok := true;
    }

    method MarkDispatched(h: Holder, ids: seq<Row>, q: Token, authorized: set<Row>) returns (count: nat)
      modifies this`inflight
      ensures count == if Owns(lease, h) && Dispatchable(old(inflight), h, ids, authorized) then |ids| else 0
      ensures count == |ids| && ids != [] ==>
        && DispatchedExactly(old(inflight), inflight, h, ids, q, authorized)
        && DispatchAll(old(inflight), h, ids, q, authorized) == Some(inflight)
      ensures count == 0 ==> inflight == old(inflight)
    {
      if ids == [] || !Owns(lease, h) {
        return 0;
      }
      var before := inflight;
      DispatchExactly(before, h, ids, q, authorized);
      DispatchEffect(before, h, ids, q, authorized);
      for i := 0 to |ids|
        invariant DispatchAll(before, h, ids[..i], q, authorized) == Some(inflight)
      {
        var r := ids[i];
        assert ids[..i + 1][..i] == ids[..i];
        var step := DispatchOne(inflight, h, r, q, authorized);
        if step.None? {
          DispatchPrefixFails(before, h, ids, q, authorized, i + 1);
          inflight := before;
          return 0;
        }
        inflight := step.value;
      }
      assert ids[..|ids|] == ids;
      count := |ids|;
    }

    method Fail(h: Holder, q: Token) returns (ok: bool)
      modifies this`inflight
      ensures ok <==> Owns(lease, h)
      ensures inflight == if ok then FailTable(old(inflight), h, q) else old(inflight)
      ensures ok ==> Failed(old(inflight), inflight, h, q)
    {
      TransitionEffects(inflight, h, q, {});
      ok := Owns(lease, h);
      if ok {
        inflight := map r | r in inflight :: if Hit(inflight[r], h, q) then inflight[r].(phase := Uncertain)
          else inflight[r];
      }
    }

    /** First the authorized rows go back to uncertain one by one, then what is left of the request is deleted. */
    method Reject(h: Holder, q: Token, authorized: set<Row>) returns (ok: bool)
      modifies this`inflight
      ensures ok <==> Owns(lease, h)
      ensures inflight == if ok then RejectTable(old(inflight), h, q, authorized) else old(inflight)
      ensures ok ==> Refused(old(inflight), inflight, h, q, authorized)
    {
      TransitionEffects(inflight, h, q, authorized);
      ok := Owns(lease, h);
      if !ok {
        return;
      }
      var t := inflight;
      var left := authorized;
      while left != {}
        invariant left <= authorized && inflight == old(inflight)
        invariant AuthorizedUndone(inflight, t, h, q, authorized - left)
      {
        var r := Pick(left);
        left := left - {r};
        if r in t && Hit(t[r], h, q) {
          t := t[r := t[r].(phase := Uncertain, request := None)];
        }
      }
      assert authorized - left == authorized;
      inflight := DeleteRequest(t, h, q, authorized);
    }

    method Skip(h: Holder, r: Row, request: Option<Token>, authorized: set<Row>) returns (ok: bool)
      modifies this`inflight
      ensures ok <==> Owns(lease, h)
      ensures inflight == if ok then SkipTable(old(inflight), h, r, request, authorized) else old(inflight)
      ensures ok ==> GivenBack(old(inflight), inflight, h, r, request, authorized)
    {
      SkipEffect(inflight, h, r, request, authorized);
      ok := Owns(lease, h);
      if !ok || r !in inflight {
        return;
      }
      if r in authorized && request.None? {
        // Reservation left the row uncertain and no request began: nothing to undo.
      } else if r in authorized {
        if Hit(inflight[r], h, request.value) {
          inflight := inflight[r := inflight[r].(phase := Uncertain, request := None)];
        }
      } else if request.None? {
        if OwnedBy(inflight[r], h) && inflight[r].phase == Claimed {
          inflight := inflight - {r};
        }
      } else if Hit(inflight[r], h, request.value) {
        inflight := inflight - {r};
      }
    }

    /** The row's marker is the one the holder dispatched under the request. */
    predicate Dispatches(h: Holder, r: Row, q: Token)
      reads this`inflight
    {
      r in inflight && inflight[r] == Marker(h.owner, h.generation, Dispatched, Some(q))
    }

    /** `active` is whether the captured embedding identity is still the active profile. */
    method Publish(h: Holder, r: Row, q: Token, active: bool) returns (done: bool)
      modifies this
      ensures done <==> active && Owns(old(lease), h) && old(Dispatches(h, r, q))
      ensures done ==> lease == old(lease) && published == old(published) + {r} && inflight == old(inflight) - {r}
      ensures !done ==> published == old(published)
      ensures !active && Owns(old(lease), h) && old(Dispatches(h, r, q)) ==>
        lease == None && Failed(old(inflight), inflight, h, q) && inflight == FailTable(old(inflight), h, q)
      ensures !(Owns(old(lease), h) && old(Dispatches(h, r, q))) ==>
        lease == old(lease) && inflight == old(inflight)
    {
      TransitionEffects(inflight, h, q, {});
      if !Owns(lease, h) || r !in inflight || !Hit(inflight[r], h, q) {
        return false;
      }
      if !active {
        inflight := map i | i in inflight :: if Hit(inflight[i], h, q) then inflight[i].(phase := Uncertain)
          else inflight[i];
        lease := None;
        return false;
      }
      published := published + {r};
      inflight := inflight - {r};
      done := true;
    }
  }
}
