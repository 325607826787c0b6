/** The store's own methods: row loops inside a transaction, rolled back on failure. */
module ReceiptStore {
  import opened Wrappers
  import opened Receipts

  class AssertionStore {
    var tables: Tables

    method PrepareAssertionRows(s: Snapshot, v: Version, cs: seq<Candidate>) returns (rows: Prepared<Assertion>)
      ensures rows == PrepareAssertions(s, v, cs)
    {
      rows := Rows({});
      var k := 0;
      while k < |cs|
        invariant 0 <= k <= |cs| && rows == PrepareAssertions(s, v, cs[..k])
        invariant rows.Rejected? ==> rows.error == Duplicate
      {
        assert cs[..k + 1][..k] == cs[..k];
        var row := PrepareAssertion(s, v, cs[k]);
        if row.None? {
          InvalidStays(s, v, cs, k + 1);
          return Rejected(Invalid);
        }
        if rows.Rows? {
          rows := if row.value in rows.rows then Rejected(Duplicate) else Rows(rows.rows + {row.value});
        }
        k := k + 1;
      }
      assert cs[..k] == cs;
    }

    method PublishSource(s: Snapshot, v: Version, cs: seq<Candidate>, rs: seq<RelationCandidate>)
      returns (result: Result)
      requires Inv(tables)
      modifies this
      ensures (tables, result) == Publish(old(tables), s, v, cs, rs)
      ensures Inv(tables) && (result.Failed? ==> tables == old(tables))
    {
      PublishKeeps(tables, s, v, cs, rs);
      if |cs| > MaxCandidates || |rs| > MaxCandidates {
        return Failed(Invalid);
      }
      var assertions := PrepareAssertionRows(s, v, cs);
      var relations := PrepareRelations(s, v, rs);
      if assertions == Rejected(Invalid) || relations == Rejected(Invalid) {
        return Failed(Invalid);
      }
      if assertions.Rejected? || relations.Rejected? {
        return Failed(Duplicate);
      }
      result := RunTransaction(s, v, assertions.rows, relations.rows);
    }

    /** Any failure on the way rolls the tables back. */
    method RunTransaction(s: Snapshot, v: Version, assertions: set<Assertion>, relations: set<Relation>)
      returns (result: Result)
      modifies this
      ensures (tables, result) == Transact(old(tables), s, v, Output(assertions, relations))
    {
      var k, output := KeyOf(s, v), Output(assertions, relations);
      if !Current(tables, s) {
        return Failed(Stale);
      }
      if ActiveFor(tables, s.source, v) {
        if Active(tables, k) && tables.receipts[k].output == output {
          return AlreadyCurrent;
        }
        return Failed(Conflict);
      }
      if k in tables.receipts {
        if tables.receipts[k].output != output {
          return Failed(Conflict);
        }
        tables := WithReceipt(tables, k, Receipt(s.message.meta, output, true));
        return AlreadyCurrent;
      }
      result := WriteRows(k, s.message.meta, assertions, relations);
    }

    method WriteRows(k: Key, meta: string, assertions: set<Assertion>, relations: set<Relation>)
      returns (result: Result)
      modifies this
      ensures var t := old(tables);
        var written :=
          WithReceipt(t, k,
            Receipt(meta, Output(assertions, relations), true)).(assertions := t.assertions + assertions);
        (tables, result) == if EndpointsOk(written, relations)
          then (written.(relations := t.relations + relations), Published)
                            else (t, Failed(MissingEndpoint))
    {
      var saved := tables;
      tables := WithReceipt(tables, k, Receipt(meta, Output(assertions, relations), true));
      var rows := assertions;
      while rows != {}
        invariant rows <= assertions
        invariant tables ==
          WithReceipt(saved, k,
            Receipt(meta, Output(assertions, relations), true)).(assertions := saved.assertions + (assertions - rows))
        decreases rows
      {
        var a :| a in rows;
        tables := tables.(assertions := tables.assertions + {a});
        rows := rows - {a};
        assert saved.assertions + (assertions - rows) == tables.assertions;
      }
      assert saved.assertions + (assertions - rows) == saved.assertions + assertions;
      ghost var written := tables;
      var rest := relations;
      while rest != {}
        invariant rest <= relations
        invariant tables == written.(relations := saved.relations + (relations - rest))
        invariant EndpointsOk(written, relations - rest)
        decreases rest
      {
        var r :| r in rest;
        if !(r.from in tables.assertions && Active(tables, r.from.key) && r.target in tables.assertions
          && Active(tables, r.target.key))
        {
          tables := saved;
          assert !EndpointsOk(written, relations);
          return Failed(MissingEndpoint);
        }
        tables := tables.(relations := tables.relations + {r});
        rest := rest - {r};
        assert saved.relations + (relations - rest) == tables.relations;
      }
      assert relations - rest == relations;
      return Published;
    }

    method InvalidateSource(source: Source)
      requires Inv(tables)
      modifies this
      ensures tables == Invalidate(old(tables), source) && Inv(tables)
      ensures forall v :: !ActiveFor(tables, source, v)
    {
      InvalidateKeeps(tables, source);
      tables := Invalidate(tables, source);
    }

    method Remove(v: Version)
      requires Inv(tables)
      modifies this
      ensures tables == RemoveVersion(old(tables), v) && Inv(tables)
    {
      RemoveKeeps(tables, v);
      tables := RemoveVersion(tables, v);
    }

    /** The bounded plan: how many sources are pending, and the first of them in id order. */
    method PlanRebuild(v: Version, limit: nat, ids: seq<Source>) returns (pending: nat, selected: seq<Source>)
      requires Inv(tables) && (forall k :: 0 <= k < |ids| ==> ids[k] in tables.messages)
      ensures pending == |PendingIn(tables, v, ids)|
      ensures selected == if pending <= limit then PendingIn(tables, v, ids) else PendingIn(tables, v, ids)[..limit]
      ensures forall source :: source in selected ==>
                source in tables.messages && !HasCurrentReceipt(tables, Snapshot(source, tables.messages[source]), v)
      ensures pending <= limit ==> forall source :: source in ids && source !in selected ==>
                HasCurrentReceipt(tables, Snapshot(source, tables.messages[source]), v)
    {
      var all: seq<Source> := [];
      for k := 0 to |ids|
        invariant all == PendingIn(tables, v, ids[..k])
      {
        assert ids[..k + 1][..k] == ids[..k];
        if !ActiveFor(tables, ids[k], v) {
          all := all + [ids[k]];
        }
      }
      assert ids[..|ids|] == ids;
      pending := |all|;
      selected := if pending <= limit then all else all[..limit];
      PendingMembers(tables, v, ids);
      assert forall source :: source in ids ==> source in tables.messages;
      forall source | source in ids
        ensures ActiveFor(tables, source, v) <==>
          HasCurrentReceipt(tables, Snapshot(source, tables.messages[source]), v)
      {
        PendingExactly(tables, source, v);
      }
    }
  }

  function PendingIn(t: Tables, v: Version, ids: seq<Source>): seq<Source> {
    if ids == [] then []
    else
      var last := ids[|ids| - 1];
      PendingIn(t, v, ids[..|ids| - 1]) + if ActiveFor(t, last, v) then [] else [last]
  }

  lemma {:induction false} PendingMembers(t: Tables, v: Version, ids: seq<Source>)
    ensures forall source :: source in PendingIn(t, v, ids) <==> source in ids && !ActiveFor(t, source, v)
  {
    if ids != [] {
      PendingMembers(t, v, ids[..|ids| - 1]);
    }
  }

  lemma {:induction false} InvalidStays(s: Snapshot, v: Version, cs: seq<Candidate>, n: nat)
    requires n <= |cs| && PrepareAssertions(s, v, cs[..n]) == Rejected(Invalid)
    ensures PrepareAssertions(s, v, cs) == Rejected(Invalid)
    decreases |cs| - n
  {
    if n < |cs| {
      assert cs[..n + 1][..n] == cs[..n];
      InvalidStays(s, v, cs, n + 1);
    } else {
      assert cs[..n] == cs;
    }
  }
}
