/** Every step keeps the ledger valid, and what a valid ledger reloads is what was written. */
module CaptureValid {
  import opened Wrappers
  import opened CaptureCursor
  import opened CaptureLedger

  /** The rows of an entry with these ids, as they were written. */
  function Zip(uid: string, ids: seq<nat>): (rows: seq<(RowUid, nat)>)
    ensures |rows| == |ids|
  {
    seq(|ids|, k requires 0 <= k < |ids| => (RowUidOf(uid, |ids|, k), ids[k]))
  }

  lemma {:induction false} RowIdsPrefix(bindings: map<nat, Binding>, session: string, uid: string, base: nat,
                                        count: nat, n: nat)
    requires n <= count && BoundRows(bindings, session, uid, base, count)
    ensures RowIds(bindings, session, Interval(base, base + n)) == Zip(uid, Interval(base, base + count))[..n]
  {
    if n > 0 {
      RowIdsPrefix(bindings, session, uid, base, count, n - 1);
      assert Interval(base, base + n)[..n - 1] == Interval(base, base + n - 1);
      assert base + n - 1 in bindings && bindings[base + n - 1].uid == RowUidOf(uid, count, n - 1);
    }
  }

  lemma {:induction false} SortPrefix(uid: string, ids: seq<nat>, n: nat)
    requires n <= |ids|
    ensures SortByComponent(Zip(uid, ids)[..n]) == Zip(uid, ids)[..n]
  {
    var rows := Zip(uid, ids);
    if n > 0 {
      SortPrefix(uid, ids, n - 1);
      var front := rows[..n - 1];
      assert rows[..n] == front + [rows[n - 1]];
    }
  }

  /** The rows of an entry are already in component order. */
  lemma ZipSorted(uid: string, ids: seq<nat>)
    ensures IdsIn(SortByComponent(Zip(uid, ids))) == ids
  {
    SortPrefix(uid, ids, |ids|);
    assert Zip(uid, ids)[..|ids|] == Zip(uid, ids);
  }

  lemma HeldBounds(t: Tables, i: nat)
    requires Valid(t) && i < |t.events| && Projects(t.events[i])
    ensures Start(t.events, i) + Count(t.events[i]) <= |t.rows| && RowsHeld(t, i)
  {
    assert Placed(t, i);
  }

  /** What the bindings reload for a version is what its line wrote. */
  lemma Reloaded(t: Tables, i: nat)
    requires Valid(t) && i < |t.events| && Projects(t.events[i])
    ensures t.events[i].uid.Some?
    ensures RowIds(t.bindings, t.events[i].session, Ids(t.events[i])) == Zip(t.events[i].uid.value, Ids(t.events[i]))
  {
    var e, base := t.events[i], Start(t.events, i);
    HeldBounds(t, i);
    RowIdsPrefix(t.bindings, e.session, e.uid.value, base, Count(e), Count(e));
    var rows := Zip(e.uid.value, Ids(e));
    assert rows[..|rows|] == rows;
  }

  // ---- where the versions stand ------------------------------------------

  /** The event ids of an entry's versions. */
  function Places(events: seq<Event>, session: string, uid: string): seq<nat> {
    if events == [] then []
    else
      Places(events[..|events| - 1], session, uid)
      + if IsVersion(events[|events| - 1], session, uid) then [|events| - 1] else []
  }

  ghost predicate PlacesFit(events: seq<Event>, session: string, uid: string) {
    var places, held := Places(events, session, uid), Versions(events, session, uid);
    && |places| == |held|
    && (forall k :: 0 <= k < |places| ==>
          places[k] < |events| && IsVersion(events[places[k]], session, uid) && held[k] == HeldBy(events[places[k]]))
    && (forall k, l :: 0 <= k < l < |places| ==> places[k] < places[l])
    && (forall i :: 0 <= i < |events| && IsVersion(events[i], session, uid) ==> i in places)
  }

  lemma {:induction false} PlacesOf(events: seq<Event>, session: string, uid: string)
    ensures PlacesFit(events, session, uid)
  {
    if events != [] {
      PlacesOf(events[..|events| - 1], session, uid);
    }
  }

  lemma VersionsGrow(events: seq<Event>, e: Event, session: string, uid: string)
    ensures Versions(events + [e], session, uid)
         == Versions(events, session, uid) + if IsVersion(e, session, uid) then [HeldBy(e)] else []
    ensures Places(events + [e], session, uid)
         == Places(events, session, uid) + if IsVersion(e, session, uid) then [|events|] else []
  {
    assert (events + [e])[..|events|] == events;
  }

  lemma OriginGrows(events: seq<Event>, e: Event, session: string, uid: string, digest: string)
    requires e.session == session
    ensures Origin(events + [e], session, uid, digest) == Origin(events, session, uid, digest)
  {
    assert (events + [e])[..|events|] == events;
  }

  // ---- one step ----------------------------------------------------------

  lemma DecideFacts(t: Tables, at: Where, line: Option<Entry>)
    ensures var o := OutcomeOf(t, at, line);
      && (o.Project? || o.Again? ==> IsEntry(line))
      && (o.Again? ==> o.version < |Versions(t.events, at.who.session, line.value.uid.value)|)
      && (o.Project? ==> o.disposition in {Fresh, Revised, ForkCopy} && (o.disposition == ForkCopy ==> at.fork.Forked?))
      && (o.Project? ==> (o.kind == Canonical <==> Versions(t.events, at.who.session, line.value.uid.value) == []))
  {
  }

  /** What a step leaves behind, whatever the line: one event, and for a projected one its rows and bindings. */
  ghost predicate Wrote(t: Tables, t': Tables, e: Event) {
    && t'.events == t.events + [e]
    && |t'.rows| == |t.rows| + Count(e)
    && (forall k :: 0 <= k < |t.rows| ==> t'.rows[k] == t.rows[k])
    && (forall id :: id in t.bindings ==> id in t'.bindings && t'.bindings[id] == t.bindings[id])
    && (forall id :: id in t'.bindings && id !in t.bindings ==> |t.rows| <= id < |t'.rows|)
    && (Projects(e) ==> WroteRows(t, t', e))
  }

  ghost predicate WroteRows(t: Tables, t': Tables, e: Event)
    requires |t'.rows| == |t.rows| + Count(e)
  {
    && e.uid.Some? && e.digest.Some? && e.cls == Projected && e.note == NoNote
    && e.ids == Some(Interval(|t.rows|, |t'.rows|))
    && RowsWritten(t', e, |t.rows|)
  }

  lemma StepBindings(t: Tables, at: Where, line: Option<Entry>)
    requires BindingsOwned(t) && OutcomeOf(t, at, line).Project?
    ensures IsEntry(line)
    ensures var o := OutcomeOf(t, at, line);
      var b := BindRows(t.bindings, at.who.session, line.value.uid.value, o.kind, o.proof, |t.rows|, o.count, o.count);
      && (forall id :: id in b <==> id in t.bindings || |t.rows| <= id < |t.rows| + o.count)
      && (forall id :: id in t.bindings ==> b[id] == t.bindings[id])
      && (forall id :: |t.rows| <= id < |t.rows| + o.count ==>
            b[id] == Binding(at.who.session, RowUidOf(line.value.uid.value, o.count, id - |t.rows|), o.kind, o.proof))
  {
    var o := OutcomeOf(t, at, line);
    DecideFacts(t, at, line);
    var uid := line.value.uid.value;
    VersionsEmpty(t.events, at.who.session, uid);
    BindRowsEffect(t.bindings, at.who.session, uid, o.kind, o.proof, |t.rows|, o.count, o.count);
  }

  lemma StepProjects(p: Point, at: Where, raw: Bytes, line: Option<Entry>, e: Event)
    requires BindingsOwned(p.tables) && OutcomeOf(p.tables, at, line).Project?
    requires e == NewEvent(p.tables, at, raw, line, OutcomeOf(p.tables, at, line))
    ensures Wrote(p.tables, Step(p, at, raw, line).tables, e)
  {
    var t, o := p.tables, OutcomeOf(p.tables, at, line);
    StepBindings(t, at, line);
    DecideFacts(t, at, line);
    assert Count(e) == o.count;
  }

  lemma StepWrites(p: Point, at: Where, raw: Bytes, line: Option<Entry>)
    requires BindingsOwned(p.tables)
    ensures Wrote(p.tables, Step(p, at, raw, line).tables,
      NewEvent(p.tables, at, raw, line, OutcomeOf(p.tables, at, line)))
  {
    var o := OutcomeOf(p.tables, at, line);
    DecideFacts(p.tables, at, line);
    if o.Project? {
      StepProjects(p, at, raw, line, NewEvent(p.tables, at, raw, line, o));
    }
  }

  lemma HasVersionGrows(events: seq<Event>, e: Event, session: string, uid: string)
    requires HasVersion(events, session, uid) || IsVersion(e, session, uid)
    ensures HasVersion(events + [e], session, uid)
  {
    if IsVersion(e, session, uid) {
      assert (events + [e])[|events|] == e;
    } else {
      var i :| 0 <= i < |events| && IsVersion(events[i], session, uid);
      assert (events + [e])[i] == events[i];
    }
  }

  lemma WroteBindings(t: Tables, t': Tables, e: Event)
    requires BindingsOwned(t) && Wrote(t, t', e)
    ensures BindingsOwned(t')
  {
    forall id | id in t'.bindings
      ensures id < |t'.rows| && HasVersion(t'.events, t'.bindings[id].session, t'.bindings[id].uid.uid)
    {
      if id !in t.bindings {
        assert t'.bindings[id].session == e.session;
      }
      HasVersionGrows(t.events, e, t'.bindings[id].session, t'.bindings[id].uid.uid);
    }
  }

  lemma WroteStarts(t: Tables, t': Tables, e: Event, i: nat)
    requires Valid(t) && Wrote(t, t', e) && i < |t'.events|
    ensures Start(t'.events, i) + Count(t'.events[i]) <= |t'.rows|
    ensures i < |t.events| ==> Start(t'.events, i) == Start(t.events, i)
    ensures i == |t.events| ==> Start(t'.events, i) == |t.rows|
  {
    StartPrefix(t.events, [e], i);
    if i < |t.events| {
      assert Placed(t, i);
    }
  }

  lemma WroteHeld(t: Tables, t': Tables, e: Event, i: nat)
    requires Valid(t) && Wrote(t, t', e) && i < |t'.events| && Projects(t'.events[i])
    requires Start(t'.events, i) + Count(t'.events[i]) <= |t'.rows|
    ensures RowsHeld(t', i)
  {
    WroteStarts(t, t', e, i);
    if i < |t.events| {
      HeldBounds(t, i);
    }
  }

  lemma WroteValid(t: Tables, t': Tables, e: Event)
    requires Valid(t) && Wrote(t, t', e)
    ensures Valid(t')
  {
    WroteBindings(t, t', e);
    StartPrefix(t.events, [e], |t.events|);
    forall i | 0 <= i < |t'.events|
      ensures Placed(t', i)
    {
      WroteStarts(t, t', e, i);
      if Projects(t'.events[i]) {
        WroteHeld(t, t', e, i);
      }
    }
  }

  lemma StepValid(p: Point, at: Where, raw: Bytes, line: Option<Entry>)
    requires Valid(p.tables)
    ensures Valid(Step(p, at, raw, line).tables)
  {
    StepWrites(p, at, raw, line);
    WroteValid(p.tables, Step(p, at, raw, line).tables,
      NewEvent(p.tables, at, raw, line, OutcomeOf(p.tables, at, line)));
  }

  lemma {:induction false} StepsValid(p: Point, at: Where, lines: seq<Bytes>, parse: Parser)
    requires Valid(p.tables)
    ensures Valid(Steps(p, at, lines, parse).tables)
  {
    if lines != [] {
      var raw := lines[|lines| - 1];
      StepsValid(p, at, lines[..|lines| - 1], parse);
      StepValid(Steps(p, at, lines[..|lines| - 1], parse), at.(position := at.position + |lines| - 1), raw, parse(raw));
    }
  }
}
