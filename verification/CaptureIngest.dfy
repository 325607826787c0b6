/**
  The batched writer: it plans a batch, then writes rows, bindings, relations and ledger events in one
  transaction.  It is proved to do exactly what the lines would do one at a time.
 */
module CaptureIngest {
  import opened Wrappers
  import opened CaptureCursor
  import opened CaptureLedger
  import opened CaptureValid
  import opened CaptureLinks
  import opened CapturePlan
  import opened CaptureBatches

  lemma PlanBegins(t: Tables, at: Where, st: ForkState, uids: set<string>, known: map<string, seq<Known>>)
    requires Valid(t)
    requires AllKnown(|t.rows|, t.events, at.who.session, uids, known)
    ensures Agrees(t, at, st.linked, uids, Plan(known, [], [], st.copiedFrom, None), Point(t, st))
  {
    assert Commit(t, at, Plan(known, [], [], st.copiedFrom, None)) == t;
  }

  ghost predicate AllKnown(base: nat, events: seq<Event>, session: string, uids: set<string>,
                           known: map<string, seq<Known>>)
  {
    forall uid :: uid in uids ==> KnownFits(base, [], KnownOf(known, uid), uid, Versions(events, session, uid))
  }

  lemma VersionsNext(base: nat, events: seq<Event>, e: Event, session: string, uids: set<string>,
                     before: map<string, seq<Known>>,
                     known: map<string, seq<Known>>)
    requires AllKnown(base, events, session, uids, before)
    requires if e.uid.Some? && e.uid.value in uids && IsVersion(e, session, e.uid.value)
             then e.digest.Some? && known == before[e.uid.value := KnownOf(before, e.uid.value)
                                                     + [Known(e.digest.value,
                                                       Stored(Ids(e), Zip(e.uid.value, Ids(e))))]]
             else known == before
    ensures AllKnown(base, events + [e], session, uids, known)
  {
    forall uid | uid in uids ensures KnownFits(base, [], KnownOf(known, uid), uid, Versions(events + [e], session, uid))
    {
      VersionsGrow(events, e, session, uid);
      var held := Versions(events, session, uid);
      if IsVersion(e, session, uid) {
        OneStored(base, KnownOf(before, uid), uid, held, e.digest.value, HeldBy(e));
      } else {
        assert KnownOf(known, uid) == KnownOf(before, uid);
      }
    }
  }

  lemma OneStored(base: nat, known: seq<Known>, uid: string, held: seq<Held>, digest: string, h: Held)
    requires KnownFits(base, [], known, uid, held) && h.digest == digest
    ensures KnownFits(base, [], known + [Known(digest, Stored(h.ids, Zip(uid, h.ids)))], uid, held + [h])
  {
  }

  /** The rows of a version whose ids the transaction has filled in so far. */
  function RowsOf(pending: seq<Pending>, filled: seq<seq<nat>>, ref: Ref): seq<(RowUid, nat)> {
    match ref
    case Stored(_, rows) => rows
    case Planned(k) => if k < |pending| && k < |filled| then Zip(pending[k].uid, filled[k]) else []
  }

  function Resolved(pending: seq<Pending>, filled: seq<seq<nat>>,
                    links: seq<(RelationKind, Ref)>): seq<(RelationKind, seq<(RowUid, nat)>)>
  {
    seq(|links|, i requires 0 <= i < |links| => (links[i].0, RowsOf(pending, filled, links[i].1)))
  }

  /** The relations of the next planned entry, written with the ids filled in so far. */
  method LinkEntry(ghost base: nat, pending: seq<Pending>, filled: seq<seq<nat>>, ids: seq<nat>)
    returns (links: seq<Group>)
    requires |filled| < |pending| && LinksOk(|filled|, pending[|filled|].links)
    requires forall i :: 0 <= i < |filled| ==> filled[i] == PlannedIds(base, pending, i)
    requires ids == PlannedIds(base, pending, |filled|)
    ensures links == LinksOf(base, pending, |filled|)
  {
    links := LinkAll(ids, Resolved(pending, filled, pending[|filled|].links));
  }

  lemma ReloadedWhole(t: Tables, i: nat)
    requires Valid(t) && i < |t.events| && Projects(t.events[i])
    ensures var e := t.events[i];
      e.uid.Some? && e.digest.Some? && RowIds(t.bindings, e.session, Ids(e)) == Zip(e.uid.value, Ids(e))
  {
    Reloaded(t, i);
    HeldBounds(t, i);
  }

  class Ledger {
    var tables: Tables

    constructor ()
      ensures tables == Tables([], [], map[], [], {}) && Valid(tables)
    {
      tables := Tables([], [], map[], [], {});
    }

    /** The versions this lineage already holds of the batch's entries, oldest first. */
    method LoadVersions(session: string, uids: set<string>) returns (known: map<string, seq<Known>>)
      requires Valid(tables)
      ensures AllKnown(|tables.rows|, tables.events, session, uids, known)
    {
      known := map[];
      var i := 0;
      assert tables.events[..0] == [];
      while i < |tables.events|
        invariant 0 <= i <= |tables.events|
        invariant AllKnown(|tables.rows|, tables.events[..i], session, uids, known)
      {
        var e := tables.events[i];
        assert tables.events[..i + 1] == tables.events[..i] + [e];
        ghost var before := known;
        if e.uid.Some? && e.uid.value in uids && IsVersion(e, session, e.uid.value) {
          ReloadedWhole(tables, i);
          known := known[e.uid.value := KnownOf(known, e.uid.value)
                           + [Known(e.digest.value, Stored(Ids(e), RowIds(tables.bindings, session, Ids(e))))]];
        }
        VersionsNext(|tables.rows|, tables.events[..i], e, session, uids, before, known);
        i := i + 1;
      }
      assert tables.events[..i] == tables.events;
    }

    /** For a fork's entries, the event that first held each content in another session that wrote it. */
    method LoadOrigins(session: string, uids: set<string>) returns (origins: map<(string, string), Source>)
      requires Valid(tables)
      ensures OriginsFit(tables.events, session, uids, origins)
    {
      origins := map[];
      var i := 0;
      assert tables.events[..0] == [];
      while i < |tables.events|
        invariant 0 <= i <= |tables.events|
        invariant OriginsFit(tables.events[..i], session, uids, origins)
      {
        var e := tables.events[i];
        assert tables.events[..i + 1] == tables.events[..i] + [e];
        ghost var before := origins;
        if e.uid.Some? && e.digest.Some? && e.uid.value in uids && IsOrigin(e, session, e.uid.value, e.digest.value)
           && (e.uid.value, e.digest.value) !in origins {
          Reloaded(tables, i);
          origins :=
            origins[(e.uid.value, e.digest.value) :=
              Source(e.session, Stored(Ids(e), RowIds(tables.bindings, e.session, Ids(e))))];
        }
        i := i + 1;
      }
      assert tables.events[..i] == tables.events;
    }

    /** The transaction's rows, bindings and relations. */
    method WriteEntries(session: string, pending: seq<Pending>)
      requires forall i :: 0 <= i < |pending| ==> LinksOk(i, pending[i].links)
      modifies this
      ensures tables == old(tables).(rows := WriteRows(old(tables).rows, session, pending, |pending|),
                bindings := WriteBindings(old(tables).bindings, session, |old(tables).rows|, pending, |pending|),
                relations := WriteRelations(old(tables).relations, |old(tables).rows|, pending, |pending|))
    {
      var k, next, base := 0, |tables.rows|, |tables.rows|;
      var filled: seq<seq<nat>> := [];
      var rows, bindings, relations := tables.rows, tables.bindings, tables.relations;
      while k < |pending|
        invariant 0 <= k <= |pending| && tables == old(tables) && base == |tables.rows|
        invariant next == Base(base, pending, k) && |filled| == k
        invariant forall i :: 0 <= i < k ==> filled[i] == PlannedIds(base, pending, i)
        invariant rows == WriteRows(tables.rows, session, pending, k)
        invariant bindings == WriteBindings(tables.bindings, session, base, pending, k)
        invariant relations == WriteRelations(tables.relations, base, pending, k)
      {
        var p := pending[k];
        var ids := Interval(next, next + p.count);
        rows := rows + NewRows(session, p.raw, p.count);
        bindings := BindRows(bindings, session, p.uid, p.kind, p.proof, next, p.count, p.count);
        var links := LinkEntry(base, pending, filled, ids);
        relations := relations + links;
        filled := filled + [ids];
        next := next + p.count;
        k := k + 1;
      }
      tables := tables.(rows := rows, bindings := bindings, relations := relations);
    }

    /** The transaction's ledger events; a shared raw line's bytes are kept once per session. */
    method WriteLedger(at: Where, base: nat, pending: seq<Pending>, drafts: seq<Draft>)
      modifies this
      ensures tables == old(tables).(events := WriteEvents(old(tables).events, base, at, pending, drafts, |drafts|))
    {
      var events, session := tables.events, at.who.session;
      var shared: map<Bytes, nat> := map[];
      var n := 0;
      while n < |drafts|
        invariant 0 <= n <= |drafts| && tables == old(tables)
        invariant events == WriteEvents(old(tables).events, base, at, pending, drafts, n)
        invariant forall line :: line in shared ==> RawHolder(events, session, line) == Some(shared[line])
      {
        var d := drafts[n];
        var cls := if d.line.Some? then d.line.value.cls else RawOnly;
        var raw, rawFrom := Some(d.raw), None;
        if cls == SharedRaw {
          if d.raw !in shared {
            var held := RawHolder(events, session, d.raw);
            if held.Some? {
              shared := shared[d.raw := held.value];
            }
          }
          if d.raw in shared {
            raw, rawFrom := None, Some(shared[d.raw]);
          }
        }
        var e :=
          Event(session, at.generation, at.position + n, if d.line.Some? then d.line.value.uid else None, cls, d.raw,
                       if d.line.Some? then Some(d.line.value.digest) else None, d.disposition,
                       DraftIds(base, pending, d), d.note, raw, rawFrom);
        ghost var before := shared;
        if cls == SharedRaw && raw.Some? {
          shared := shared[d.raw := |events|];
        }
        forall line | line in shared ensures RawHolder(events + [e], session, line) == Some(shared[line]) {
        }
        events := events + [e];
        n := n + 1;
      }
      tables := tables.(events := events);
    }

    /** One batch: rows, bindings, relations, ledger events and the cursor, exactly as its lines one at a time. */
    method IngestLines(who: Lineage, fork: Fork, cursor: Cursor, st: ForkState, lines: seq<(nat, Bytes)>, parse: Parser)
      returns (cursor': Cursor, st': ForkState)
      requires Valid(tables) && lines != [] && (cursor.offset == 0 <==> cursor.lineIndex == 0)
      modifies this
      ensures Valid(tables)
      ensures Point(tables, st') ==
        Steps(Point(old(tables), st), Where(who, fork, cursor.generation, cursor.lineIndex), Raws(lines), parse)
      ensures AfterBatch(Stepper(who, fork, cursor.generation, parse), Point(old(tables), st), cursor, lines) ==
        (Point(tables, st'), cursor')
    {
      var at := Where(who, fork, cursor.generation, cursor.lineIndex);
      var raws := Raws(lines);
      var uids := set k | 0 <= k < |raws| && IsEntry(parse(raws[k])) :: parse(raws[k]).value.uid.value;
      var known := LoadVersions(who.session, uids);
      var origins: map<(string, string), Source> := map[];
      if fork.Forked? {
        origins := LoadOrigins(who.session, uids);
      }
      var plan := Plans(at, st, uids, known, origins, raws, parse);
      ghost var p := Steps(Point(tables, st), at, raws, parse);
      var base := |tables.rows|;
      tables := tables.(links := tables.links + AgentLink(who, cursor.offset == 0) + ParentLink(who, plan.parent));
      WriteEntries(who.session, plan.pending);
      WriteLedger(at, base, plan.pending, plan.drafts);
      st' := if fork.Forked? then ForkState(plan.copiedFrom, st.linked || plan.parent.Some?) else st;
      cursor' := Advance(cursor, lines);
      assert tables.links == p.tables.links;
      assert tables == p.tables;
    }

    /** The planning loop. */
    method Plans(at: Where, st: ForkState, uids: set<string>, known: map<string, seq<Known>>,
                 origins: map<(string, string), Source>,
                 raws: seq<Bytes>, parse: Parser) returns (plan: Plan)
      requires Valid(tables) && AllKnown(|tables.rows|, tables.events, at.who.session, uids, known)
      requires at.fork.Forked? ==> OriginsFit(tables.events, at.who.session, uids, origins)
      requires forall k :: 0 <= k < |raws| && IsEntry(parse(raws[k])) ==> parse(raws[k]).value.uid.value in uids
      ensures Agrees(tables, at, st.linked, uids, plan, Steps(Point(tables, st), at, raws, parse))
        && |plan.drafts| == |raws|
      ensures at.fork.NotFork? ==> plan.copiedFrom == st.copiedFrom && plan.parent == None
    {
      plan := Plan(known, [], [], st.copiedFrom, None);
      PlanBegins(tables, at, st, uids, known);
      ghost var p := Point(tables, st);
      var n := 0;
      while n < |raws|
        invariant 0 <= n <= |raws| && |plan.drafts| == n
        invariant p == Steps(Point(tables, st), at, raws[..n], parse)
        invariant Agrees(tables, at, st.linked, uids, plan, p)
        invariant at.fork.Forked? ==> OriginsFit(p.tables.events, at.who.session, uids, origins)
        invariant at.fork.NotFork? ==> plan.copiedFrom == st.copiedFrom && plan.parent == None
      {
        var raw := raws[n];
        ghost var here := at.(position := at.position + n);
        StepsGrow(Point(tables, st), at, raws, n, parse);
        PlanKeeps(tables, at, st.linked, uids, plan, p, origins, here, raw, parse(raw));
        StepAddsEvent(p, here, raw, parse(raw));
        if at.fork.Forked? {
          OriginsKept(p.tables.events, NewEvent(p.tables, here, raw, parse(raw), OutcomeOf(p.tables, here, parse(raw))),
                      at.who.session, uids, origins);
        }
        p := Step(p, here, raw, parse(raw));
        plan := PlanLine(plan, at, st.linked, origins, raw, parse(raw));
        n := n + 1;
      }
      assert raws[..n] == raws;
    }
  }

  lemma StepsGrow(p: Point, at: Where, lines: seq<Bytes>, n: nat, parse: Parser)
    requires n < |lines|
    ensures Steps(p, at, lines[..n + 1], parse)
         == Step(Steps(p, at, lines[..n], parse), at.(position := at.position + n), lines[n], parse(lines[n]))
  {
    assert lines[..n + 1][..n] == lines[..n];
  }
}
