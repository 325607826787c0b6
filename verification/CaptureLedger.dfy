/**
  The capture ledger and what one transcript line does to it: rows, bindings, relations, a ledger event.
  `Step` is the simple form, reading every earlier version back from the ledger; the batched writer is
  proved against it.
 */
module CaptureLedger {
  import opened Wrappers
  import opened CaptureCursor

  datatype Class = Projected | SharedRaw | RawOnly

  /** A line that is a JSON object, as the pure classify, digest and project functions see it.
      `uid` is None unless it is a non-empty string; `rows` is None when projecting the entry raises. */
  datatype Entry = Entry(cls: Class, uid: Option<string>, digest: string, written: Option<int>, rows: Option<nat>)

  type Parser = Bytes -> Option<Entry>

  datatype Disposition = Fresh | Revised | ForkCopy | Duplicate | Raw
  datatype Note = NoNote | WithoutUuid | ProjectionError
  datatype BindingKind = Canonical | Revision
  datatype Proof = TranscriptUuid | CopyProof
  datatype RowUid = Whole(uid: string) | Part(uid: string, index: nat)
  datatype Binding = Binding(session: string, uid: RowUid, kind: BindingKind, proof: Proof)
  datatype RelationKind = Supersedes | ForkCopyOf
  datatype Relation = Relation(newer: nat, kind: RelationKind, older: nat)
  /** The relations one entry's new rows get to one earlier version, row by row as `Pairs` ties them. */
  datatype Group = Group(newIds: seq<nat>, kind: RelationKind, previous: seq<(RowUid, nat)>)
  datatype Link = SubagentOf(child: string, parent: string) | ForkOf(child: string, parent: string)
  datatype Row = Row(session: string, line: Bytes, index: nat)

  /** One line's ledger row; its position in the ledger is its event id. */
  datatype Event = Event(session: string, generation: nat, position: nat, uid: Option<string>, cls: Class,
                         line: Bytes, digest: Option<string>, disposition: Disposition, ids: Option<seq<nat>>,
                         note: Note, raw: Option<Bytes>, rawFrom: Option<nat>)

  /** The store; a message row's position is its store id. */
  datatype Tables = Tables(events: seq<Event>, rows: seq<Row>, bindings: map<nat, Binding>,
                           relations: seq<Group>, links: set<Link>)

  /** A lineage: the session its rows go to, and for a subagent the session it belongs to. */
  datatype Lineage = Lineage(session: string, agentOf: Option<string>)
  datatype Fork = NotFork | Forked(started: Option<int>)
  datatype ForkState = ForkState(copiedFrom: Option<string>, linked: bool)
  datatype Held = Held(session: string, digest: string, ids: seq<nat>)

  // ---- ledger lookups ----------------------------------------------------

  predicate Projects(e: Event) {
    e.disposition in {Fresh, Revised, ForkCopy}
  }

  predicate IsVersion(e: Event, session: string, uid: string) {
    e.session == session && e.uid == Some(uid) && Projects(e)
  }

  function Ids(e: Event): seq<nat> {
    if e.ids.Some? then e.ids.value else []
  }

  function HeldBy(e: Event): Held {
    Held(e.session, if e.digest.Some? then e.digest.value else "", Ids(e))
  }

  /** The content versions a lineage holds of an entry, oldest first. */
  function Versions(events: seq<Event>, session: string, uid: string): seq<Held> {
    if events == [] then []
    else
      var e := events[|events| - 1];
      Versions(events[..|events| - 1], session, uid) + if IsVersion(e, session, uid) then [HeldBy(e)] else []
  }

  predicate IsOrigin(e: Event, session: string, uid: string, digest: string) {
    e.session != session && e.uid == Some(uid) && e.digest == Some(digest) && e.disposition in {Fresh, Revised}
  }

  /** The event that first held this content in another session that wrote it, never a copy. */
  function Origin(events: seq<Event>, session: string, uid: string, digest: string): (o: Option<Held>)
    ensures o.None? ==> forall i :: 0 <= i < |events| ==> !IsOrigin(events[i], session, uid, digest)
    ensures o.Some? ==>
      exists i :: 0 <= i < |events| && IsFirstOrigin(events, i, session, uid, digest) && o.value == HeldBy(events[i])
  {
    if events == [] then None
    else
      var e := events[|events| - 1];
      var earlier := Origin(events[..|events| - 1], session, uid, digest);
      if earlier.Some? then
        assert forall i :: 0 <= i < |events| - 1 ==> events[..|events| - 1][i] == events[i];
        assert exists i ::
          0 <= i < |events| - 1 && IsFirstOrigin(events, i, session, uid, digest)
            && earlier.value == HeldBy(events[i]) by {
          var i :| 0 <= i < |events| - 1 && IsFirstOrigin(events[..|events| - 1], i, session, uid, digest)
                   && earlier.value == HeldBy(events[..|events| - 1][i]);
          assert IsFirstOrigin(events, i, session, uid, digest);
        }
        earlier
      else if IsOrigin(e, session, uid, digest) then
        assert IsFirstOrigin(events, |events| - 1, session, uid, digest);
        Some(HeldBy(e))
      else None
  }

  predicate IsFirstOrigin(events: seq<Event>, i: nat, session: string, uid: string, digest: string)
    requires i < |events|
  {
    IsOrigin(events[i], session, uid, digest) && (forall j :: 0 <= j < i ==> !IsOrigin(events[j], session, uid, digest))
  }

  /** The rows of a version, by the bindings recorded for them. */
  function RowIds(bindings: map<nat, Binding>, session: string, ids: seq<nat>): seq<(RowUid, nat)> {
    if ids == [] then []
    else
      var id := ids[|ids| - 1];
      RowIds(bindings, session, ids[..|ids| - 1])
      + if id in bindings && bindings[id].session == session then [(bindings[id].uid, id)] else []
  }

  predicate HoldsRaw(e: Event, session: string, line: Bytes) {
    e.session == session && e.line == line && e.cls == SharedRaw && e.raw.Some?
  }

  /** The event that keeps the bytes of a shared raw line for its session. */
  function RawHolder(events: seq<Event>, session: string, line: Bytes): (h: Option<nat>)
    ensures h.Some? ==> h.value < |events| && HoldsRaw(events[h.value], session, line)
    ensures h.None? ==> forall i :: 0 <= i < |events| ==> !HoldsRaw(events[i], session, line)
  {
    if events == [] then None
    else
      var earlier := RawHolder(events[..|events| - 1], session, line);
      if earlier.Some? then earlier
      else if HoldsRaw(events[|events| - 1], session, line) then Some(|events| - 1)
      else None
  }

  // ---- links between versions --------------------------------------------

  function Component(uid: RowUid): nat {
    match uid case Whole(_) => 0 case Part(_, index) => index
  }

  function Insert(row: (RowUid, nat), sorted: seq<(RowUid, nat)>): seq<(RowUid, nat)> {
    if sorted == [] || Component(sorted[|sorted| - 1].0) <= Component(row.0) then sorted + [row]
    else Insert(row, sorted[..|sorted| - 1]) + [sorted[|sorted| - 1]]
  }

  function SortByComponent(rows: seq<(RowUid, nat)>): seq<(RowUid, nat)> {
    if rows == [] then [] else Insert(rows[|rows| - 1], SortByComponent(rows[..|rows| - 1]))
  }

  function IdsIn(rows: seq<(RowUid, nat)>): (ids: seq<nat>)
    ensures |ids| == |rows|
  {
    seq(|rows|, i requires 0 <= i < |rows| => rows[i].1)
  }

  function Min(a: int, b: int): int {
    if a < b then a else b
  }

  /** (new row, previous row): row for row in projection order, the longer side's extra rows tied to
      the other side's last row. */
  function Pairs(newIds: seq<nat>, previous: seq<(RowUid, nat)>): seq<(nat, nat)> {
    var oldIds := IdsIn(SortByComponent(previous));
    if oldIds == [] || newIds == [] then []
    else
      seq(|newIds|, i requires 0 <= i < |newIds| => (newIds[i], oldIds[Min(i, |oldIds| - 1)]))
      + if |oldIds| <= |newIds| then []
        else
          seq(|oldIds| - |newIds|, j requires 0 <= j < |oldIds| - |newIds| =>
                (newIds[|newIds| - 1], oldIds[|newIds| + j]))
  }

  /** The relation rows a store of groups holds. */
  ghost predicate Holds(relations: seq<Group>, r: Relation) {
    exists g :: g in relations && InGroup(g, r)
  }

  predicate InGroup(g: Group, r: Relation) {
    g.kind == r.kind && (r.newer, r.older) in Pairs(g.newIds, g.previous)
  }

  // ---- one line ----------------------------------------------------------

  function Find(digests: seq<string>, digest: string): (k: Option<nat>)
    ensures k.Some? ==> k.value < |digests| && digests[k.value] == digest
    ensures k.None? ==> digest !in digests
  {
    if digests == [] then None
    else
      var earlier := Find(digests[..|digests| - 1], digest);
      if earlier.Some? then earlier
      else if digests[|digests| - 1] == digest then Some(|digests| - 1)
      else None
  }

  /** An entry is a copy when it was written before the fork started; with either time unknown, when
      its writer's row is known. */
  predicate Copied(written: Option<int>, started: Option<int>, originKnown: bool) {
    if started.None? || written.None? then originKnown else written.value < started.value
  }

  datatype Outcome =
    | Keep(note: Note)
    | Again(version: nat)
    | Project(disposition: Disposition, kind: BindingKind, proof: Proof, count: nat)

  /** What becomes of a line, given the digests this lineage already holds of its uid. */
  function Decide(line: Option<Entry>, digests: seq<string>, fork: Fork, originKnown: bool): (o: Outcome)
    ensures o.Again? || o.Project? ==> IsEntry(line)
    ensures o.Again? ==> o.version < |digests| && digests[o.version] == line.value.digest
    ensures o.Project? ==> line.value.digest !in digests && line.value.rows == Some(o.count)
    ensures o.Project? ==> (o.kind == Canonical <==> digests == []) && o.disposition in {Fresh, Revised, ForkCopy}
  {
    if line.None? || line.value.cls != Projected then Keep(NoNote)
    else if line.value.uid.None? then Keep(WithoutUuid)
    else
      var same := Find(digests, line.value.digest);
      if same.Some? then Again(same.value)
      else if line.value.rows.None? then Keep(ProjectionError)
      else
        var kind := if digests == [] then Canonical else Revision;
        if fork.Forked? && Copied(line.value.written, fork.started, originKnown)
        then Project(ForkCopy, kind, CopyProof, line.value.rows.value)
        else Project(if digests == [] then Fresh else Revised, kind, TranscriptUuid, line.value.rows.value)
  }

  predicate IsEntry(line: Option<Entry>) {
    line.Some? && line.value.cls == Projected && line.value.uid.Some?
  }

  function Digests(held: seq<Held>): (digests: seq<string>)
    ensures |digests| == |held|
  {
    seq(|held|, i requires 0 <= i < |held| => held[i].digest)
  }

  /** A fork's own first entry ends its copied prefix. */
  predicate EndsPrefix(fork: Fork, st: ForkState, o: Outcome) {
    fork.Forked? && !st.linked && o.Project? && o.disposition != ForkCopy
  }

  function ForkAfter(fork: Fork, st: ForkState, o: Outcome, origin: Option<Held>): ForkState {
    if o.Project? && o.disposition == ForkCopy && origin.Some? then st.(copiedFrom := Some(origin.value.session))
    else if EndsPrefix(fork, st, o) then st.(linked := true)
    else st
  }

  function ParentLink(who: Lineage, parent: Option<string>): set<Link> {
    if parent.Some? && parent.value != "" && parent.value != who.session then {ForkOf(who.session, parent.value)}
      else {}
  }

  function AgentLink(who: Lineage, first: bool): set<Link> {
    if first && who.agentOf.Some? then {SubagentOf(who.session, who.agentOf.value)} else {}
  }

  function RowUidOf(uid: string, count: nat, index: nat): RowUid {
    if count == 1 then Whole(uid) else Part(uid, index)
  }

  function Interval(from: nat, to: nat): (ids: seq<nat>)
    requires from <= to
    ensures |ids| == to - from && (forall i :: 0 <= i < |ids| ==> ids[i] == from + i)
  {
    seq(to - from, i => from + i)
  }

  function NewRows(session: string, line: Bytes, count: nat): (rows: seq<Row>)
    ensures |rows| == count
  {
    seq(count, i requires 0 <= i < count => Row(session, line, i))
  }

  predicate CanonicalHeld(bindings: map<nat, Binding>, session: string, uid: RowUid) {
    exists id ::
      id in bindings && bindings[id].session == session && bindings[id].uid == uid && bindings[id].kind == Canonical
  }

  /** A canonical binding never replaces one. */
  function Bind(bindings: map<nat, Binding>, id: nat, b: Binding): map<nat, Binding> {
    if b.kind == Canonical && CanonicalHeld(bindings, b.session, b.uid) then bindings else bindings[id := b]
  }

  function BindRows(bindings: map<nat, Binding>, session: string, uid: string, kind: BindingKind, proof: Proof,
                    base: nat, count: nat, n: nat): map<nat, Binding>
    requires n <= count
  {
    if n == 0 then bindings
    else
      Bind(BindRows(bindings, session, uid, kind, proof, base, count, n - 1), base + n - 1,
           Binding(session, RowUidOf(uid, count, n - 1), kind, proof))
  }

  /** An entry's rows, their bindings and their relations. */
  function AddRows(t: Tables, session: string, uid: string, raw: Bytes, kind: BindingKind, proof: Proof, base: nat,
                   count: nat, relations: seq<Group>): Tables {
    t.(rows := t.rows + NewRows(session, raw, count),
       bindings := BindRows(t.bindings, session, uid, kind, proof, base, count, count),
       relations := t.relations + relations)
  }

  function Last(versions: seq<Held>): seq<nat> {
    if versions == [] then [] else versions[|versions| - 1].ids
  }

  function EventOf(events: seq<Event>, session: string, generation: nat, position: nat, raw: Bytes,
                   line: Option<Entry>, disposition: Disposition, ids: Option<seq<nat>>, note: Note): Event {
    var cls := if line.Some? then line.value.cls else RawOnly;
    var holder := if cls == SharedRaw then RawHolder(events, session, raw) else None;
    Event(session, generation, position, if line.Some? then line.value.uid else None, cls, raw,
          if line.Some? then Some(line.value.digest) else None, disposition, ids, note,
          if holder.Some? then None else Some(raw), holder)
  }

  datatype Where = Where(who: Lineage, fork: Fork, generation: nat, position: nat)
  datatype Point = Point(tables: Tables, fork: ForkState)

  function OutcomeOf(t: Tables, at: Where, line: Option<Entry>): Outcome {
    if IsEntry(line) then
      Decide(line, Digests(Versions(t.events, at.who.session, line.value.uid.value)), at.fork,
        OriginOf(t, at, line).Some?)
    else Decide(line, [], at.fork, false)
  }

  /** Only a fork's entries look for their writer. */
  function OriginOf(t: Tables, at: Where, line: Option<Entry>): Option<Held> {
    if at.fork.Forked? && IsEntry(line) then Origin(t.events, at.who.session, line.value.uid.value, line.value.digest)
    else None
  }

  /** The relations of a projected entry's new rows. */
  function NewRelations(t: Tables, at: Where, line: Option<Entry>, o: Outcome): seq<Group>
    requires o.Project? && IsEntry(line)
  {
    var ids := Interval(|t.rows|, |t.rows| + o.count);
    var session, origin := at.who.session, OriginOf(t, at, line);
    var versions := Versions(t.events, session, line.value.uid.value);
    (if versions == [] then [] else [Group(ids, Supersedes, RowIds(t.bindings, session, Last(versions)))])
    + if o.disposition == ForkCopy && origin.Some?
      then [Group(ids, ForkCopyOf, RowIds(t.bindings, origin.value.session, origin.value.ids))] else []
  }

  function NewLinks(at: Where, st: ForkState, o: Outcome): set<Link> {
    AgentLink(at.who, at.position == 0)
    + if EndsPrefix(at.fork, st, o)
      then ParentLink(at.who, Some(if st.copiedFrom.Some? then st.copiedFrom.value else ""))
      else {}
  }

  function NewEvent(t: Tables, at: Where, raw: Bytes, line: Option<Entry>, o: Outcome): Event
    requires o.Again? ==> IsEntry(line) && o.version < |Versions(t.events, at.who.session, line.value.uid.value)|
  {
    match o
    case Keep(note) => EventOf(t.events, at.who.session, at.generation, at.position, raw, line, Raw, None, note)
    case Again(k) =>
      EventOf(t.events, at.who.session, at.generation, at.position, raw, line, Duplicate,
              Some(Versions(t.events, at.who.session, line.value.uid.value)[k].ids), NoNote)
    case Project(disposition, _, _, count) =>
      EventOf(t.events, at.who.session, at.generation, at.position, raw, line, disposition,
              Some(Interval(|t.rows|, |t.rows| + count)), NoNote)
  }

  /** A line's outcome, written down. */
  function Taken(p: Point, at: Where, raw: Bytes, line: Option<Entry>, o: Outcome, origin: Option<Held>): Point
    requires o.Again? || o.Project? ==> IsEntry(line)
    requires o.Again? ==> o.version < |Versions(p.tables.events, at.who.session, line.value.uid.value)|
  {
    var t := p.tables;
    var t' := t.(events := t.events + [NewEvent(t, at, raw, line, o)], links := t.links + NewLinks(at, p.fork, o));
    Point(
      if o.Project? then
        AddRows(t', at.who.session, line.value.uid.value, raw, o.kind, o.proof, |t.rows|, o.count,
          NewRelations(t, at, line, o))
      else t',
      ForkAfter(at.fork, p.fork, o, origin))
  }

  /** One line, by itself: everything it depends on is read back from the ledger. */
  function Step(p: Point, at: Where, raw: Bytes, line: Option<Entry>): Point {
    Taken(p, at, raw, line, OutcomeOf(p.tables, at, line), OriginOf(p.tables, at, line))
  }

  function Fold<S>(step: (S, nat, Bytes) -> S, start: S, position: nat, lines: seq<Bytes>): S {
    if lines == [] then start
    else step(Fold(step, start, position, lines[..|lines| - 1]), position + |lines| - 1, lines[|lines| - 1])
  }

  lemma {:induction false} FoldAppend<S>(step: (S, nat, Bytes) -> S, start: S, position: nat, a: seq<Bytes>,
                                         b: seq<Bytes>)
    ensures Fold(step, start, position, a + b) == Fold(step, Fold(step, start, position, a), position + |a|, b)
    decreases |b|
  {
    if b == [] {
      assert a + b == a;
    } else {
      assert (a + b)[..|a + b| - 1] == a + b[..|b| - 1];
      FoldAppend(step, start, position, a, b[..|b| - 1]);
    }
  }

  /** What each step keeps, the whole run keeps. */
  lemma {:induction false} FoldKeeps<S>(step: (S, nat, Bytes) -> S, start: S, position: nat, lines: seq<Bytes>,
                                        n: nat, kept: (S, nat) -> bool)
    requires n <= |lines| && kept(start, 0)
    requires forall s: S, k: nat :: k < |lines| && kept(s, k) ==> kept(step(s, position + k, lines[k]), k + 1)
    ensures kept(Fold(step, start, position, lines[..n]), n)
  {
    if n > 0 {
      FoldKeeps(step, start, position, lines, n - 1, kept);
      assert lines[..n][..n - 1] == lines[..n - 1];
    }
  }

  function Stepper(who: Lineage, fork: Fork, generation: nat, parse: Parser): (Point, nat, Bytes) -> Point {
    (p: Point, position: nat, raw: Bytes) => Step(p, Where(who, fork, generation, position), raw, parse(raw))
  }

  /** Lines one after another. */
  function Steps(p: Point, at: Where, lines: seq<Bytes>, parse: Parser): Point {
    Fold(Stepper(at.who, at.fork, at.generation, parse), p, at.position, lines)
  }

  predicate Same<T(==)>(x: T, y: T) {
    x == y
  }

  lemma StepsKeep(p: Point, at: Where, lines: seq<Bytes>, parse: Parser, kept: (Point, nat) -> bool)
    requires kept(p, 0)
    requires forall q: Point, k: nat :: k < |lines| && kept(q, k) ==>
      kept(Step(q, Where(at.who, at.fork, at.generation, at.position + k), lines[k], parse(lines[k])), k + 1)
    ensures kept(Steps(p, at, lines, parse), |lines|)
  {
    FoldKeeps(Stepper(at.who, at.fork, at.generation, parse), p, at.position, lines, |lines|, kept);
    assert lines[..|lines|] == lines;
  }

  // ---- what every ledger keeps -------------------------------------------

  function Count(e: Event): nat {
    if Projects(e) then |Ids(e)| else 0
  }

  /** The rows written by events before `n`. */
  function Start(events: seq<Event>, n: nat): nat
    requires n <= |events|
  {
    if n == 0 then 0 else Start(events, n - 1) + Count(events[n - 1])
  }

  /** A projected event's rows: its own consecutive ids, each with this line's content and one binding. */
  predicate RowsHeld(t: Tables, i: nat)
    requires i < |t.events| && Start(t.events, i) + Count(t.events[i]) <= |t.rows|
  {
    var e := t.events[i];
    && e.uid.Some? && e.digest.Some? && e.cls == Projected && e.note == NoNote
    && e.ids == Some(Interval(Start(t.events, i), Start(t.events, i) + Count(e)))
    && RowsWritten(t, e, Start(t.events, i))
  }

  predicate RowsWritten(t: Tables, e: Event, base: nat)
    requires e.uid.Some? && base + Count(e) <= |t.rows|
  {
    && (forall id :: base <= id < base + Count(e) ==> t.rows[id] == Row(e.session, e.line, id - base))
    && BoundRows(t.bindings, e.session, e.uid.value, base, Count(e))
  }

  predicate BoundRows(bindings: map<nat, Binding>, session: string, uid: string, base: nat, count: nat) {
    && (forall id :: base <= id < base + count ==> id in bindings)
    && (forall id :: base <= id < base + count ==>
          bindings[id].session == session && bindings[id].uid == RowUidOf(uid, count, id - base))
  }

  ghost predicate HasVersion(events: seq<Event>, session: string, uid: string) {
    exists i :: 0 <= i < |events| && IsVersion(events[i], session, uid)
  }

  ghost predicate BindingsOwned(t: Tables) {
    forall id :: id in t.bindings ==>
      id < |t.rows| && HasVersion(t.events, t.bindings[id].session, t.bindings[id].uid.uid)
  }

  ghost predicate Placed(t: Tables, i: nat)
    requires i < |t.events|
  {
    Start(t.events, i) + Count(t.events[i]) <= |t.rows| && (Projects(t.events[i]) ==> RowsHeld(t, i))
  }

  ghost predicate Valid(t: Tables) {
    && Start(t.events, |t.events|) == |t.rows|
    && (forall i :: 0 <= i < |t.events| ==> Placed(t, i))
    && BindingsOwned(t)
  }

  lemma {:induction false} StartMonotone(events: seq<Event>, i: nat, j: nat)
    requires i <= j <= |events|
    ensures Start(events, i) <= Start(events, j)
  {
    if i < j {
      StartMonotone(events, i, j - 1);
    }
  }

  lemma {:induction false} StartPrefix(a: seq<Event>, b: seq<Event>, n: nat)
    requires n <= |a|
    ensures Start(a + b, n) == Start(a, n)
  {
    if n > 0 {
      StartPrefix(a, b, n - 1);
    }
  }

  lemma {:induction false} VersionsEmpty(events: seq<Event>, session: string, uid: string)
    ensures Versions(events, session, uid) == [] <==> !HasVersion(events, session, uid)
  {
    if events != [] {
      VersionsEmpty(events[..|events| - 1], session, uid);
    }
  }

  lemma {:induction false} BindRowsEffect(bindings: map<nat, Binding>, session: string, uid: string, kind: BindingKind,
                                          proof: Proof, base: nat, count: nat, n: nat)
    requires n <= count
    requires forall id :: id in bindings ==> id < base
    requires kind == Canonical ==> forall id :: id in bindings && bindings[id].session == session ==>
      bindings[id].uid.uid != uid
    ensures var b := BindRows(bindings, session, uid, kind, proof, base, count, n);
            && (forall id :: id in b <==> id in bindings || base <= id < base + n)
            && (forall id :: id in bindings ==> b[id] == bindings[id])
            && (forall id :: base <= id < base + n ==>
              b[id] == Binding(session, RowUidOf(uid, count, id - base), kind, proof))
  {
    if n > 0 {
      BindRowsEffect(bindings, session, uid, kind, proof, base, count, n - 1);
      var b := BindRows(bindings, session, uid, kind, proof, base, count, n - 1);
      forall id | id in b && b[id].session == session && kind == Canonical
        ensures b[id].uid != RowUidOf(uid, count, n - 1)
      {
      }
    }
  }
}
