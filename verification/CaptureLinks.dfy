/** Revision chains and fork copies: which rows a supersedes link reaches, and where copy links end. */
module CaptureLinks {
  import opened Wrappers
  import opened CaptureCursor
  import opened CaptureLedger
  import opened CaptureValid

  /** Event `j` holds the version right after event `i`'s, of the same entry. */
  ghost predicate Successor(events: seq<Event>, i: nat, j: nat) {
    && i < j < |events| && Projects(events[i]) && events[i].uid.Some?
    && IsVersion(events[j], events[i].session, events[i].uid.value)
    && (forall k :: i < k < j ==> !IsVersion(events[k], events[i].session, events[i].uid.value))
  }

  ghost predicate Supersede(relations: seq<Group>, newer: nat, older: nat) {
    Holds(relations, Relation(newer, Supersedes, older))
  }

  /** Row for row in order, the longer side's extra rows tied to the other side's last row. */
  ghost predicate Tied(newIds: seq<nat>, oldIds: seq<nat>, newer: nat, older: nat) {
    exists k: nat :: TiedAt(newIds, oldIds, k, newer, older)
  }

  predicate TiedAt(newIds: seq<nat>, oldIds: seq<nat>, k: nat, newer: nat, older: nat) {
    && newIds != [] && oldIds != [] && (k < |newIds| || k < |oldIds|)
    && newer == newIds[if k < |newIds| then k else |newIds| - 1]
    && older == oldIds[if k < |oldIds| then k else |oldIds| - 1]
  }

  /** All such ties are there. */
  ghost predicate AllTied(relations: seq<Group>, kind: RelationKind, newIds: seq<nat>, oldIds: seq<nat>) {
    forall n: nat, o: nat :: Tied(newIds, oldIds, n, o) ==> Holds(relations, Relation(n, kind, o))
  }

  ghost predicate SupersedesSound(t: Tables, r: Relation) {
    exists i: nat, j: nat :: Successor(t.events, i, j) && Tied(Ids(t.events[j]), Ids(t.events[i]), r.newer, r.older)
  }

  /** A fork's copy and the event that first held its content in a session that wrote it. */
  ghost predicate CopiedFrom(events: seq<Event>, i: nat, j: nat) {
    && i < j < |events| && events[j].disposition == ForkCopy && events[j].uid.Some? && events[j].digest.Some?
    && IsFirstOrigin(events, i, events[j].session, events[j].uid.value, events[j].digest.value)
  }

  ghost predicate CopySound(t: Tables, r: Relation) {
    exists i: nat, j: nat :: CopiedFrom(t.events, i, j) && Tied(Ids(t.events[j]), Ids(t.events[i]), r.newer, r.older)
  }

  ghost predicate LinksSound(t: Tables) {
    forall r :: Holds(t.relations, r) ==> if r.kind == Supersedes then SupersedesSound(t, r) else CopySound(t, r)
  }

  ghost predicate LinksComplete(t: Tables) {
    && (forall i: nat, j: nat :: Successor(t.events, i, j) ==>
          AllTied(t.relations, Supersedes, Ids(t.events[j]), Ids(t.events[i])))
    && (forall i: nat, j: nat :: CopiedFrom(t.events, i, j) ==>
          AllTied(t.relations, ForkCopyOf, Ids(t.events[j]), Ids(t.events[i])))
  }

  // ---- the pairing -------------------------------------------------------

  lemma PairAt(newIds: seq<nat>, uid: string, oldIds: seq<nat>, k: nat)
    ensures var pairs := Pairs(newIds, Zip(uid, oldIds));
      && (k < |pairs| <==> newIds != [] && oldIds != [] && (k < |newIds| || k < |oldIds|))
      && (k < |pairs| ==> TiedAt(newIds, oldIds, k, pairs[k].0, pairs[k].1))
  {
    ZipSorted(uid, oldIds);
  }

  /** The pairs are exactly those ties. */
  lemma PairsExactly(newIds: seq<nat>, uid: string, oldIds: seq<nat>, newer: nat, older: nat)
    ensures (newer, older) in Pairs(newIds, Zip(uid, oldIds)) <==> Tied(newIds, oldIds, newer, older)
  {
    var pairs := Pairs(newIds, Zip(uid, oldIds));
    if (newer, older) in pairs {
      var k: nat :| k < |pairs| && pairs[k] == (newer, older);
      PairAt(newIds, uid, oldIds, k);
    }
    if k: nat :| TiedAt(newIds, oldIds, k, newer, older) {
      PairAt(newIds, uid, oldIds, k);
      assert pairs[k] == (newer, older);
    }
  }

  lemma TiedWithin(newIds: seq<nat>, oldIds: seq<nat>, newer: nat, older: nat)
    requires Tied(newIds, oldIds, newer, older)
    ensures newer in newIds && older in oldIds
  {
  }

  /** Neither side is left with a row untied. */
  lemma NoneUntied(newIds: seq<nat>, oldIds: seq<nat>, id: nat)
    requires newIds != [] && oldIds != []
    ensures id in oldIds ==> exists n: nat :: Tied(newIds, oldIds, n, id)
    ensures id in newIds ==> exists o: nat :: Tied(newIds, oldIds, id, o)
  {
    if id in oldIds {
      var k: nat :| k < |oldIds| && oldIds[k] == id;
      var n := newIds[if k < |newIds| then k else |newIds| - 1];
      assert TiedAt(newIds, oldIds, k, n, id);
      assert Tied(newIds, oldIds, n, id);
    }
    if id in newIds {
      var k: nat :| k < |newIds| && newIds[k] == id;
      var o := oldIds[if k < |oldIds| then k else |oldIds| - 1];
      assert TiedAt(newIds, oldIds, k, id, o);
      assert Tied(newIds, oldIds, id, o);
    }
  }

  lemma GroupTies(relations: seq<Group>, newIds: seq<nat>, kind: RelationKind, uid: string, oldIds: seq<nat>)
    requires Group(newIds, kind, Zip(uid, oldIds)) in relations
    ensures AllTied(relations, kind, newIds, oldIds)
  {
    forall n: nat, o: nat | Tied(newIds, oldIds, n, o) ensures Holds(relations, Relation(n, kind, o)) {
      PairsExactly(newIds, uid, oldIds, n, o);
      assert InGroup(Group(newIds, kind, Zip(uid, oldIds)), Relation(n, kind, o));
    }
  }

  // ---- one step ----------------------------------------------------------

  /** The place of an entry's latest version. */
  lemma LatestPlace(events: seq<Event>, session: string, uid: string) returns (i: nat)
    requires Versions(events, session, uid) != []
    ensures i < |events| && IsVersion(events[i], session, uid) && Last(Versions(events, session, uid)) == Ids(events[i])
    ensures forall k :: i < k < |events| ==> !IsVersion(events[k], session, uid)
  {
    PlacesOf(events, session, uid);
    var places := Places(events, session, uid);
    i := places[|places| - 1];
  }

  lemma LatestIsLast(events: seq<Event>, session: string, uid: string, i: nat)
    requires i < |events| && IsVersion(events[i], session, uid)
    requires forall k :: i < k < |events| ==> !IsVersion(events[k], session, uid)
    ensures Versions(events, session, uid) != [] && Last(Versions(events, session, uid)) == Ids(events[i])
  {
    VersionsEmpty(events, session, uid);
    var j := LatestPlace(events, session, uid);
    assert i == j;
  }

  lemma SuccessorGrown(events: seq<Event>, e: Event, i: nat, j: nat)
    requires j < |events|
    ensures Successor(events + [e], i, j) <==> Successor(events, i, j)
  {
    assert forall k :: 0 <= k < |events| ==> (events + [e])[k] == events[k];
  }

  /** What the new event's relations tie together. */
  ghost predicate Related(t: Tables, t': Tables, e: Event, groups: seq<Group>) {
    && t'.events == t.events + [e] && t'.relations == t.relations + groups
    && (if Projects(e) then e.uid.Some? && e.digest.Some? && GroupsFit(t, e, groups) else groups == [])
  }

  ghost predicate GroupsFit(t: Tables, e: Event, groups: seq<Group>)
    requires e.uid.Some? && e.digest.Some?
  {
    var versions, origin :=
      Versions(t.events, e.session, e.uid.value), Origin(t.events, e.session, e.uid.value, e.digest.value);
    && (versions != [] ==> Group(Ids(e), Supersedes, Zip(e.uid.value, Last(versions))) in groups)
    && (e.disposition == ForkCopy && origin.Some? ==>
          Group(Ids(e), ForkCopyOf, Zip(e.uid.value, origin.value.ids)) in groups)
    && (forall g :: g in groups ==>
          || (g == Group(Ids(e), Supersedes, Zip(e.uid.value, Last(versions))) && versions != [])
          || (e.disposition == ForkCopy && origin.Some?
            && g == Group(Ids(e), ForkCopyOf, Zip(e.uid.value, origin.value.ids))))
  }

  lemma NewSupersedesSound(t: Tables, t': Tables, e: Event, r: Relation)
    requires t'.events == t.events + [e] && Projects(e) && e.uid.Some?
      && Versions(t.events, e.session, e.uid.value) != []
    requires InGroup(Group(Ids(e), Supersedes, Zip(e.uid.value, Last(Versions(t.events, e.session, e.uid.value)))), r)
    ensures SupersedesSound(t', r)
  {
    var uid := e.uid.value;
    PairsExactly(Ids(e), uid, Last(Versions(t.events, e.session, uid)), r.newer, r.older);
    var i := LatestPlace(t.events, e.session, uid);
    assert forall k :: 0 <= k < |t.events| ==> t'.events[k] == t.events[k];
    assert Successor(t'.events, i, |t.events|);
  }

  lemma NewCopySound(t: Tables, t': Tables, e: Event, r: Relation, origin: Option<Held>)
    requires t'.events == t.events + [e] && e.disposition == ForkCopy && e.uid.Some? && e.digest.Some?
    requires origin == Origin(t.events, e.session, e.uid.value, e.digest.value) && origin.Some?
    requires InGroup(Group(Ids(e), ForkCopyOf, Zip(e.uid.value, origin.value.ids)), r)
    ensures CopySound(t', r)
  {
    var uid, digest := e.uid.value, e.digest.value;
    PairsExactly(Ids(e), uid, origin.value.ids, r.newer, r.older);
    var i :| 0 <= i < |t.events| && IsFirstOrigin(t.events, i, e.session, uid, digest)
      && origin.value == HeldBy(t.events[i]);
    assert forall k :: 0 <= k < |t.events| ==> t'.events[k] == t.events[k];
    assert CopiedFrom(t'.events, i, |t.events|);
  }

  lemma OldSound(t: Tables, t': Tables, e: Event, r: Relation)
    requires t'.events == t.events + [e]
    ensures SupersedesSound(t, r) ==> SupersedesSound(t', r)
    ensures CopySound(t, r) ==> CopySound(t', r)
  {
    assert forall k :: 0 <= k < |t.events| ==> t'.events[k] == t.events[k];
    if SupersedesSound(t, r) {
      var i: nat, j: nat :| Successor(t.events, i, j) && Tied(Ids(t.events[j]), Ids(t.events[i]), r.newer, r.older);
      SuccessorGrown(t.events, e, i, j);
    }
    if CopySound(t, r) {
      var i: nat, j: nat :| CopiedFrom(t.events, i, j) && Tied(Ids(t.events[j]), Ids(t.events[i]), r.newer, r.older);
      assert CopiedFrom(t'.events, i, j);
    }
  }

  lemma SoundKept(t: Tables, t': Tables, e: Event, groups: seq<Group>)
    requires Related(t, t', e, groups) && LinksSound(t)
    ensures LinksSound(t')
  {
    forall r | Holds(t'.relations, r)
      ensures if r.kind == Supersedes then SupersedesSound(t', r) else CopySound(t', r)
    {
      var g :| g in t'.relations && InGroup(g, r);
      if g in t.relations {
        assert Holds(t.relations, r);
        OldSound(t, t', e, r);
      } else if g.kind == Supersedes {
        NewSupersedesSound(t, t', e, r);
      } else {
        NewCopySound(t, t', e, r, Origin(t.events, e.session, e.uid.value, e.digest.value));
      }
    }
  }

  lemma TiesGrow(relations: seq<Group>, more: seq<Group>, kind: RelationKind, newIds: seq<nat>, oldIds: seq<nat>)
    requires AllTied(relations, kind, newIds, oldIds)
    ensures AllTied(relations + more, kind, newIds, oldIds)
  {
    forall n: nat, o: nat | Tied(newIds, oldIds, n, o) ensures Holds(relations + more, Relation(n, kind, o)) {
      var g :| g in relations && InGroup(g, Relation(n, kind, o));
      assert g in relations + more;
    }
  }

  lemma SuccessorsTied(t: Tables, t': Tables, e: Event, groups: seq<Group>, i: nat, j: nat)
    requires Related(t, t', e, groups) && LinksComplete(t) && Successor(t'.events, i, j)
    ensures AllTied(t'.relations, Supersedes, Ids(t'.events[j]), Ids(t'.events[i]))
  {
    assert forall k :: 0 <= k < |t.events| ==> t'.events[k] == t.events[k];
    if j < |t.events| {
      SuccessorGrown(t.events, e, i, j);
      TiesGrow(t.relations, groups, Supersedes, Ids(t.events[j]), Ids(t.events[i]));
    } else {
      LatestIsLast(t.events, e.session, e.uid.value, i);
      GroupTies(t'.relations, Ids(e), Supersedes, e.uid.value, Ids(t.events[i]));
    }
  }

  lemma CopiesTied(t: Tables, t': Tables, e: Event, groups: seq<Group>, i: nat, j: nat)
    requires Related(t, t', e, groups) && LinksComplete(t) && CopiedFrom(t'.events, i, j)
    ensures AllTied(t'.relations, ForkCopyOf, Ids(t'.events[j]), Ids(t'.events[i]))
  {
    assert forall k :: 0 <= k < |t.events| ==> t'.events[k] == t.events[k];
    if j < |t.events| {
      assert CopiedFrom(t.events, i, j);
      TiesGrow(t.relations, groups, ForkCopyOf, Ids(t.events[j]), Ids(t.events[i]));
    } else {
      var origin := Origin(t.events, e.session, e.uid.value, e.digest.value);
      assert IsFirstOrigin(t.events, i, e.session, e.uid.value, e.digest.value);
      var h :| 0 <= h < |t.events| && IsFirstOrigin(t.events, h, e.session, e.uid.value, e.digest.value)
        && origin.value == HeldBy(t.events[h]);
      assert h == i;
      GroupTies(t'.relations, Ids(e), ForkCopyOf, e.uid.value, Ids(t.events[i]));
    }
  }

  lemma CompleteKept(t: Tables, t': Tables, e: Event, groups: seq<Group>)
    requires Related(t, t', e, groups) && LinksComplete(t)
    ensures LinksComplete(t')
  {
    forall i: nat, j: nat | Successor(t'.events, i, j)
      ensures AllTied(t'.relations, Supersedes, Ids(t'.events[j]), Ids(t'.events[i]))
    {
      SuccessorsTied(t, t', e, groups, i, j);
    }
    forall i: nat, j: nat | CopiedFrom(t'.events, i, j)
      ensures AllTied(t'.relations, ForkCopyOf, Ids(t'.events[j]), Ids(t'.events[i]))
    {
      CopiesTied(t, t', e, groups, i, j);
    }
  }

  lemma PreviousReloads(t: Tables, session: string, uid: string)
    requires Valid(t)
    ensures var ids := Last(Versions(t.events, session, uid)); RowIds(t.bindings, session, ids) == Zip(uid, ids)
  {
    if Versions(t.events, session, uid) != [] {
      var i := LatestPlace(t.events, session, uid);
      Reloaded(t, i);
    }
  }

  lemma OriginReloads(t: Tables, session: string, uid: string, digest: string)
    requires Valid(t)
    ensures var o := Origin(t.events, session, uid, digest);
            o.Some? ==> RowIds(t.bindings, o.value.session, o.value.ids) == Zip(uid, o.value.ids)
  {
    var o := Origin(t.events, session, uid, digest);
    if o.Some? {
      var i :| 0 <= i < |t.events| && IsFirstOrigin(t.events, i, session, uid, digest)
        && o.value == HeldBy(t.events[i]);
      Reloaded(t, i);
    }
  }

  function GroupsOf(t: Tables, at: Where, line: Option<Entry>): seq<Group> {
    var o := OutcomeOf(t, at, line);
    if o.Project? && IsEntry(line) then NewRelations(t, at, line, o) else []
  }

  lemma StepRelates(p: Point, at: Where, raw: Bytes, line: Option<Entry>)
    requires Valid(p.tables)
    ensures Related(p.tables, Step(p, at, raw, line).tables,
      NewEvent(p.tables, at, raw, line, OutcomeOf(p.tables, at, line)),
                    GroupsOf(p.tables, at, line))
  {
    var t, o := p.tables, OutcomeOf(p.tables, at, line);
    DecideFacts(t, at, line);
    if o.Project? {
      PreviousReloads(t, at.who.session, line.value.uid.value);
      OriginReloads(t, at.who.session, line.value.uid.value, line.value.digest);
    }
  }

  /** Every step keeps the links exact: sound for every link, complete for every pair of versions. */
  lemma StepLinks(p: Point, at: Where, raw: Bytes, line: Option<Entry>)
    requires Valid(p.tables) && LinksSound(p.tables) && LinksComplete(p.tables)
    ensures LinksSound(Step(p, at, raw, line).tables) && LinksComplete(Step(p, at, raw, line).tables)
  {
    var t, t', o := p.tables, Step(p, at, raw, line).tables, OutcomeOf(p.tables, at, line);
    StepRelates(p, at, raw, line);
    SoundKept(t, t', NewEvent(t, at, raw, line, o), GroupsOf(t, at, line));
    CompleteKept(t, t', NewEvent(t, at, raw, line, o), GroupsOf(t, at, line));
  }

  // ---- what the links mean -----------------------------------------------

  ghost predicate Superseded(t: Tables, id: nat) {
    exists n: nat :: Supersede(t.relations, n, id)
  }

  /** No row belongs to two events. */
  lemma RowsDisjoint(t: Tables, i: nat, j: nat, id: nat)
    requires Valid(t) && i < |t.events| && j < |t.events| && Projects(t.events[i]) && Projects(t.events[j])
    requires id in Ids(t.events[i]) && id in Ids(t.events[j])
    ensures i == j
  {
    HeldBounds(t, i);
    HeldBounds(t, j);
    if i < j {
      StartMonotone(t.events, i + 1, j);
    } else if j < i {
      StartMonotone(t.events, j + 1, i);
    }
  }

  /** A row is superseded exactly when the next version of its entry exists and has rows. */
  lemma SupersededExactly(t: Tables, i: nat, id: nat)
    requires Valid(t) && LinksSound(t) && LinksComplete(t)
    requires i < |t.events| && Projects(t.events[i]) && id in Ids(t.events[i])
    ensures Superseded(t, id) <==> exists j: nat :: Successor(t.events, i, j) && Ids(t.events[j]) != []
  {
    if Superseded(t, id) {
      var n: nat :| Supersede(t.relations, n, id);
      assert SupersedesSound(t, Relation(n, Supersedes, id));
      var i': nat, j: nat :| Successor(t.events, i', j) && Tied(Ids(t.events[j]), Ids(t.events[i']), n, id);
      TiedWithin(Ids(t.events[j]), Ids(t.events[i']), n, id);
      RowsDisjoint(t, i, i', id);
    }
    if j: nat :| Successor(t.events, i, j) && Ids(t.events[j]) != [] {
      NoneUntied(Ids(t.events[j]), Ids(t.events[i]), id);
      var n: nat :| Tied(Ids(t.events[j]), Ids(t.events[i]), n, id);
      assert Supersede(t.relations, n, id);
    }
  }

  lemma {:induction false} NextVersion(events: seq<Event>, i: nat, n: nat) returns (j: nat)
    requires i < n < |events| && Projects(events[i]) && events[i].uid.Some?
    requires IsVersion(events[n], events[i].session, events[i].uid.value)
    ensures Successor(events, i, j) && j <= n
  {
    if k: nat :| i < k < n && IsVersion(events[k], events[i].session, events[i].uid.value) {
      j := NextVersion(events, i, k);
    } else {
      j := n;
    }
  }

  /** The rows of an entry that no supersedes link reaches are exactly its latest version's, when every
      version gave at least one row. */
  lemma LatestRows(t: Tables, session: string, uid: string, i: nat, id: nat)
    requires Valid(t) && LinksSound(t) && LinksComplete(t)
    requires forall k :: 0 <= k < |t.events| && IsVersion(t.events[k], session, uid) ==> Ids(t.events[k]) != []
    requires i < |t.events| && IsVersion(t.events[i], session, uid) && id in Ids(t.events[i])
    ensures !Superseded(t, id) <==> forall k :: i < k < |t.events| ==> !IsVersion(t.events[k], session, uid)
    ensures !Superseded(t, id) <==> id in Last(Versions(t.events, session, uid))
  {
    SupersededExactly(t, i, id);
    if k: nat :| i < k < |t.events| && IsVersion(t.events[k], session, uid) {
      var j := NextVersion(t.events, i, k);
      assert Superseded(t, id);
    }
    VersionsEmpty(t.events, session, uid);
    var l := LatestPlace(t.events, session, uid);
    if id in Ids(t.events[l]) {
      RowsDisjoint(t, i, l, id);
    }
  }

  /** A copy link ends at a row that the session it names wrote itself, never at another copy. */
  lemma CopyEndsAtWriter(t: Tables, r: Relation)
    requires Valid(t) && LinksSound(t) && Holds(t.relations, r) && r.kind == ForkCopyOf
    ensures r.newer < |t.rows| && r.older < |t.rows| && t.rows[r.newer].session != t.rows[r.older].session
    ensures forall i :: 0 <= i < |t.events| && Projects(t.events[i]) && r.older in Ids(t.events[i]) ==>
              t.events[i].disposition != ForkCopy && t.events[i].session == t.rows[r.older].session
    ensures forall i :: 0 <= i < |t.events| && Projects(t.events[i]) && r.newer in Ids(t.events[i]) ==>
              t.events[i].disposition == ForkCopy
  {
    var i: nat, j: nat :| CopiedFrom(t.events, i, j) && Tied(Ids(t.events[j]), Ids(t.events[i]), r.newer, r.older);
    TiedWithin(Ids(t.events[j]), Ids(t.events[i]), r.newer, r.older);
    HeldBounds(t, i);
    HeldBounds(t, j);
    forall k: nat | 0 <= k < |t.events| && Projects(t.events[k]) && r.older in Ids(t.events[k]) ensures k == i {
      RowsDisjoint(t, i, k, r.older);
    }
    forall k: nat | 0 <= k < |t.events| && Projects(t.events[k]) && r.newer in Ids(t.events[k]) ensures k == j {
      RowsDisjoint(t, j, k, r.newer);
    }
  }

  /** The links there are: exactly the ties of every version to the one right before it, and of every copy to the event
      that first held its content in a session that wrote it. */
  lemma LinksExactly(t: Tables, r: Relation)
    requires LinksSound(t) && LinksComplete(t)
    ensures Holds(t.relations, r) <==>
      exists i: nat, j: nat ::
        && (if r.kind == Supersedes then Successor(t.events, i, j) else CopiedFrom(t.events, i, j))
        && Tied(Ids(t.events[j]), Ids(t.events[i]), r.newer, r.older)
  {
    if i: nat, j: nat :|
      && (if r.kind == Supersedes then Successor(t.events, i, j) else CopiedFrom(t.events, i, j))
      && Tied(Ids(t.events[j]), Ids(t.events[i]), r.newer, r.older)
    {
      assert AllTied(t.relations, r.kind, Ids(t.events[j]), Ids(t.events[i]));
    }
  }
}
