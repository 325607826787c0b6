/**
  Planning a batch: every line is planned against versions held in memory, whose row ids do not exist yet.
  The plan agrees, line by line, with taking the lines one at a time against the ledger.
 */
module CapturePlan {
  import opened Wrappers
  import opened CaptureCursor
  import opened CaptureLedger
  import opened CaptureValid
  import opened CaptureLinks

  /** A version's rows: read from the ledger, or planned by this batch (and filled in by the transaction). */
  datatype Ref = Stored(ids: seq<nat>, rows: seq<(RowUid, nat)>) | Planned(index: nat)
  datatype Known = Known(digest: string, ref: Ref)
  datatype Pending = Pending(uid: string, raw: Bytes, kind: BindingKind, proof: Proof, count: nat,
                             links: seq<(RelationKind, Ref)>)
  datatype Draft = Draft(raw: Bytes, line: Option<Entry>, disposition: Disposition, version: Option<Ref>, note: Note)
  datatype Source = Source(session: string, ref: Ref)

  /** What a batch has planned so far. */
  datatype Plan = Plan(known: map<string, seq<Known>>, pending: seq<Pending>, drafts: seq<Draft>,
                       copiedFrom: Option<string>, parent: Option<string>)

  function KnownOf(known: map<string, seq<Known>>, uid: string): seq<Known> {
    if uid in known then known[uid] else []
  }

  function KnownDigests(known: seq<Known>): seq<string> {
    seq(|known|, i requires 0 <= i < |known| => known[i].digest)
  }

  // ---- ids of planned rows -----------------------------------------------

  /** The first id of planned entry `k`: rows are numbered in planning order. */
  function Base(base: nat, pending: seq<Pending>, k: nat): nat
    requires k <= |pending|
  {
    if k == 0 then base else Base(base, pending, k - 1) + pending[k - 1].count
  }

  function PlannedIds(base: nat, pending: seq<Pending>, k: nat): seq<nat>
    requires k < |pending|
  {
    Interval(Base(base, pending, k), Base(base, pending, k) + pending[k].count)
  }

  function RefIds(base: nat, pending: seq<Pending>, ref: Ref): seq<nat> {
    match ref
    case Stored(ids, _) => ids
    case Planned(k) => if k < |pending| then PlannedIds(base, pending, k) else []
  }

  function RefRows(base: nat, pending: seq<Pending>, ref: Ref): seq<(RowUid, nat)> {
    match ref
    case Stored(_, rows) => rows
    case Planned(k) => if k < |pending| then Zip(pending[k].uid, PlannedIds(base, pending, k)) else []
  }

  /** The reference names a stored version, or one of the first `n` planned entries. */
  predicate RefOk(n: nat, ref: Ref) {
    ref.Planned? ==> ref.index < n
  }

  lemma {:induction false} BasePrefix(base: nat, pending: seq<Pending>, more: seq<Pending>, k: nat)
    requires k <= |pending|
    ensures Base(base, pending + more, k) == Base(base, pending, k)
  {
    if k > 0 {
      BasePrefix(base, pending, more, k - 1);
    }
  }

  lemma RefStable(base: nat, pending: seq<Pending>, more: seq<Pending>, ref: Ref)
    requires RefOk(|pending|, ref)
    ensures RefOk(|pending + more|, ref)
    ensures RefIds(base, pending + more, ref) == RefIds(base, pending, ref)
    ensures RefRows(base, pending + more, ref) == RefRows(base, pending, ref)
  {
    if ref.Planned? {
      BasePrefix(base, pending, more, ref.index);
    }
  }

  // ---- the transaction, as a function of the plan ------------------------

  function LinkAll(newIds: seq<nat>, links: seq<(RelationKind, seq<(RowUid, nat)>)>): seq<Group> {
    seq(|links|, i requires 0 <= i < |links| => Group(newIds, links[i].0, links[i].1))
  }

  /** The previous rows each link names, once the transaction knows their ids. */
  function Filled(base: nat, pending: seq<Pending>,
                  links: seq<(RelationKind, Ref)>): seq<(RelationKind, seq<(RowUid, nat)>)>
  {
    seq(|links|, i requires 0 <= i < |links| => (links[i].0, RefRows(base, pending, links[i].1)))
  }

  /** Rows, bindings and relations of the first `n` planned entries. */
  function WriteRows(rows: seq<Row>, session: string, pending: seq<Pending>, n: nat): seq<Row>
    requires n <= |pending|
  {
    if n == 0 then rows
    else WriteRows(rows, session, pending, n - 1) + NewRows(session, pending[n - 1].raw, pending[n - 1].count)
  }

  function WriteBindings(bindings: map<nat, Binding>, session: string, base: nat, pending: seq<Pending>,
                         n: nat): map<nat, Binding>
    requires n <= |pending|
  {
    if n == 0 then bindings
    else
      var p := pending[n - 1];
      BindRows(WriteBindings(bindings, session, base, pending, n - 1), session, p.uid, p.kind, p.proof,
               Base(base, pending, n - 1), p.count, p.count)
  }

  function WriteRelations(relations: seq<Group>, base: nat, pending: seq<Pending>, n: nat): seq<Group>
    requires n <= |pending|
  {
    if n == 0 then relations else WriteRelations(relations, base, pending, n - 1) + LinksOf(base, pending, n - 1)
  }

  function LinksOf(base: nat, pending: seq<Pending>, k: nat): seq<Group>
    requires k < |pending|
  {
    LinkAll(PlannedIds(base, pending, k), Filled(base, pending, pending[k].links))
  }

  function DraftIds(base: nat, pending: seq<Pending>, d: Draft): Option<seq<nat>> {
    if d.version.Some? then Some(RefIds(base, pending, d.version.value)) else None
  }

  /** The ledger events of the first `n` lines. */
  function WriteEvents(events: seq<Event>, base: nat, at: Where, pending: seq<Pending>, drafts: seq<Draft>,
                       n: nat): (r: seq<Event>)
    requires n <= |drafts|
    ensures |r| == |events| + n
  {
    if n == 0 then events
    else
      var w, d := WriteEvents(events, base, at, pending, drafts, n - 1), drafts[n - 1];
      w + [EventOf(w, at.who.session, at.generation, at.position + n - 1, d.raw, d.line, d.disposition,
                   DraftIds(base, pending, d), d.note)]
  }

  function Commit(t: Tables, at: Where, plan: Plan): Tables {
    var base, n := |t.rows|, |plan.pending|;
    Tables(WriteEvents(t.events, base, at, plan.pending, plan.drafts, |plan.drafts|),
           WriteRows(t.rows, at.who.session, plan.pending, n),
           WriteBindings(t.bindings, at.who.session, base, plan.pending, n),
           WriteRelations(t.relations, base, plan.pending, n),
           t.links)
  }

  // ---- planning one line -------------------------------------------------

  function SourceOf(at: Where, origins: map<(string, string), Source>, line: Option<Entry>): Option<Source> {
    if at.fork.Forked? && IsEntry(line) && (line.value.uid.value, line.value.digest) in origins
    then Some(origins[(line.value.uid.value, line.value.digest)]) else None
  }

  function LinksFor(known: seq<Known>, o: Outcome, source: Option<Source>): seq<(RelationKind, Ref)> {
    (if known == [] then [] else [(Supersedes, known[|known| - 1].ref)])
    + if o.Project? && o.disposition == ForkCopy && source.Some? then [(ForkCopyOf, source.value.ref)] else []
  }

  function PlanOutcome(plan: Plan, at: Where, origins: map<(string, string), Source>, line: Option<Entry>): Outcome {
    if IsEntry(line)
    then Decide(line, KnownDigests(KnownOf(plan.known, line.value.uid.value)), at.fork,
      SourceOf(at, origins, line).Some?)
    else Decide(line, [], at.fork, false)
  }

  /** The draft a line leaves behind. */
  function NewDraft(plan: Plan, raw: Bytes, line: Option<Entry>, o: Outcome): Draft
    requires o.Again? ==> IsEntry(line) && o.version < |KnownOf(plan.known, line.value.uid.value)|
  {
    match o
    case Keep(note) => Draft(raw, line, Raw, None, note)
    case Again(k) => Draft(raw, line, Duplicate, Some(KnownOf(plan.known, line.value.uid.value)[k].ref), NoNote)
    case Project(disposition, _, _, _) => Draft(raw, line, disposition, Some(Planned(|plan.pending|)), NoNote)
  }

  function NewPending(plan: Plan, raw: Bytes, line: Option<Entry>, o: Outcome, source: Option<Source>): Pending
    requires o.Project? && IsEntry(line)
  {
    var uid := line.value.uid.value;
    Pending(uid, raw, o.kind, o.proof, o.count, LinksFor(KnownOf(plan.known, uid), o, source))
  }

  /** A line's outcome, planned: `linked` is what the cursor recorded before this batch. */
  function Scheduled(plan: Plan, at: Where, linked: bool, raw: Bytes, line: Option<Entry>, o: Outcome,
                     source: Option<Source>): Plan
    requires o.Again? || o.Project? ==> IsEntry(line)
    requires o.Again? ==> o.version < |KnownOf(plan.known, line.value.uid.value)|
  {
    var drafted := plan.(drafts := plan.drafts + [NewDraft(plan, raw, line, o)]);
    if !o.Project? then drafted
    else
      var uid, copied := line.value.uid.value, o.disposition == ForkCopy;
      drafted.(known :=
        plan.known[uid := KnownOf(plan.known, uid) + [Known(line.value.digest, Planned(|plan.pending|))]],
               pending := plan.pending + [NewPending(plan, raw, line, o, source)],
               copiedFrom := if copied && source.Some? then Some(source.value.session) else plan.copiedFrom,
               parent := if !copied && at.fork.Forked? && !linked && plan.parent.None?
                         then Some(if plan.copiedFrom.Some? then plan.copiedFrom.value else "") else plan.parent)
  }

  /** The body of the planning loop. */
  function PlanLine(plan: Plan, at: Where, linked: bool, origins: map<(string, string), Source>, raw: Bytes,
                    line: Option<Entry>): Plan
  {
    Scheduled(plan, at, linked, raw, line, PlanOutcome(plan, at, origins, line), SourceOf(at, origins, line))
  }

  function ForkStateOf(plan: Plan, linked: bool): ForkState {
    ForkState(plan.copiedFrom, linked || plan.parent.Some?)
  }

  // ---- the plan agrees with the lines taken one at a time -----------------

  ghost predicate KnownFits(base: nat, pending: seq<Pending>, known: seq<Known>, uid: string, held: seq<Held>) {
    && |known| == |held|
    && (forall i :: 0 <= i < |known| ==>
          && known[i].digest == held[i].digest && RefOk(|pending|, known[i].ref)
          && RefIds(base, pending, known[i].ref) == held[i].ids
          && RefRows(base, pending, known[i].ref) == Zip(uid, held[i].ids))
  }

  ghost predicate SourceFits(origins: map<(string, string), Source>, uid: string, digest: string, o: Option<Held>) {
    && ((uid, digest) in origins <==> o.Some?)
    && (o.Some? ==> origins[(uid, digest)] == Source(o.value.session, Stored(o.value.ids, Zip(uid, o.value.ids))))
  }

  /** The origins a fork looked up when the batch began. */
  ghost predicate OriginsFit(events: seq<Event>, session: string, uids: set<string>,
                             origins: map<(string, string), Source>)
  {
    forall uid: string, digest: string :: uid in uids ==>
      SourceFits(origins, uid, digest, Origin(events, session, uid, digest))
  }

  ghost predicate RefsOk(plan: Plan) {
    && (forall i :: 0 <= i < |plan.pending| ==> LinksOk(i, plan.pending[i].links))
    && (forall i :: 0 <= i < |plan.drafts| ==>
      (plan.drafts[i].version.Some? ==> RefOk(|plan.pending|, plan.drafts[i].version.value)))
  }

  ghost predicate LinksOk(n: nat, links: seq<(RelationKind, Ref)>) {
    forall i :: 0 <= i < |links| ==> RefOk(n, links[i].1)
  }

  /** Planned so far, against the ledger the same lines leave one at a time. */
  ghost predicate Agrees(t: Tables, at: Where, linked: bool, uids: set<string>, plan: Plan, p: Point) {
    && Valid(p.tables) && RefsOk(plan)
    && p.tables == Commit(t, at, plan).(links := p.tables.links)
    && p.tables.links == t.links + AgentLink(at.who, at.position == 0 && plan.drafts != [])
      + ParentLink(at.who, plan.parent)
    && p.fork == ForkStateOf(plan, linked) && (linked ==> plan.parent.None?)
    && (forall uid :: uid in uids ==>
          KnownFits(|t.rows|, plan.pending, KnownOf(plan.known, uid), uid,
            Versions(p.tables.events, at.who.session, uid)))
  }

  lemma FilledStable(base: nat, pending: seq<Pending>, more: seq<Pending>, links: seq<(RelationKind, Ref)>)
    requires LinksOk(|pending|, links)
    ensures Filled(base, pending + more, links) == Filled(base, pending, links)
  {
    forall i | 0 <= i < |links| ensures RefRows(base, pending + more, links[i].1) == RefRows(base, pending, links[i].1)
    {
      RefStable(base, pending, more, links[i].1);
    }
  }

  lemma {:induction false} WriteRowsStable(rows: seq<Row>, session: string, pending: seq<Pending>, more: seq<Pending>,
                                           n: nat)
    requires n <= |pending|
    ensures WriteRows(rows, session, pending + more, n) == WriteRows(rows, session, pending, n)
    ensures |WriteRows(rows, session, pending, n)| == Base(|rows|, pending, n)
  {
    if n > 0 {
      WriteRowsStable(rows, session, pending, more, n - 1);
    }
  }

  lemma {:induction false} WriteBindingsStable(bindings: map<nat, Binding>, session: string, base: nat,
                                               pending: seq<Pending>,
                                               more: seq<Pending>, n: nat)
    requires n <= |pending|
    ensures WriteBindings(bindings, session, base, pending + more, n) ==
      WriteBindings(bindings, session, base, pending, n)
  {
    if n > 0 {
      WriteBindingsStable(bindings, session, base, pending, more, n - 1);
      BasePrefix(base, pending, more, n - 1);
    }
  }

  lemma {:induction false} WriteRelationsStable(relations: seq<Group>, base: nat, pending: seq<Pending>,
                                                more: seq<Pending>, n: nat)
    requires n <= |pending| && (forall i :: 0 <= i < |pending| ==> LinksOk(i, pending[i].links))
    ensures WriteRelations(relations, base, pending + more, n) == WriteRelations(relations, base, pending, n)
  {
    if n > 0 {
      WriteRelationsStable(relations, base, pending, more, n - 1);
      LinksOfStable(base, pending, more, n - 1);
    }
  }

  lemma LinksOfStable(base: nat, pending: seq<Pending>, more: seq<Pending>, k: nat)
    requires k < |pending| && LinksOk(|pending|, pending[k].links)
    ensures LinksOf(base, pending + more, k) == LinksOf(base, pending, k)
  {
    BasePrefix(base, pending, more, k);
    FilledStable(base, pending, more, pending[k].links);
    assert PlannedIds(base, pending + more, k) == PlannedIds(base, pending, k);
  }

  lemma {:induction false} WriteEventsStable(events: seq<Event>, base: nat, at: Where, pending: seq<Pending>,
                                             more: seq<Pending>,
                                             drafts: seq<Draft>, last: seq<Draft>, n: nat)
    requires n <= |drafts|
    requires forall i :: 0 <= i < |drafts| ==> (drafts[i].version.Some? ==> RefOk(|pending|, drafts[i].version.value))
    ensures WriteEvents(events, base, at, pending + more, drafts + last, n) ==
      WriteEvents(events, base, at, pending, drafts, n)
  {
    if n > 0 {
      WriteEventsStable(events, base, at, pending, more, drafts, last, n - 1);
      assert (drafts + last)[n - 1] == drafts[n - 1];
      if drafts[n - 1].version.Some? {
        RefStable(base, pending, more, drafts[n - 1].version.value);
      }
    }
  }

  /** One more draft, with or without one more planned entry, adds exactly its own event. */
  lemma CommitEvent(t: Tables, at: Where, plan: Plan, more: seq<Pending>, d: Draft)
    requires RefsOk(plan)
    ensures var pending := plan.pending + more;
      var w := WriteEvents(t.events, |t.rows|, at, plan.pending, plan.drafts, |plan.drafts|);
      WriteEvents(t.events, |t.rows|, at, pending, plan.drafts + [d], |plan.drafts| + 1)
      == w + [EventOf(w, at.who.session, at.generation, at.position + |plan.drafts|, d.raw, d.line, d.disposition,
                      DraftIds(|t.rows|, pending, d), d.note)]
  {
    WriteEventsStable(t.events, |t.rows|, at, plan.pending, more, plan.drafts, [d], |plan.drafts|);
  }

  /** One more planned entry adds exactly its own rows, bindings and relations. */
  lemma OneMoreRows(rows: seq<Row>, session: string, pending: seq<Pending>, x: Pending)
    ensures var w := WriteRows(rows, session, pending, |pending|);
      && |w| == Base(|rows|, pending, |pending|)
      && WriteRows(rows, session, pending + [x], |pending| + 1) == w + NewRows(session, x.raw, x.count)
  {
    WriteRowsStable(rows, session, pending, [x], |pending|);
  }

  lemma OneMoreBindings(bindings: map<nat, Binding>, session: string, base: nat, pending: seq<Pending>, x: Pending)
    ensures WriteBindings(bindings, session, base, pending + [x], |pending| + 1)
         == BindRows(WriteBindings(bindings, session, base, pending, |pending|), session, x.uid, x.kind, x.proof,
                     Base(base, pending, |pending|), x.count, x.count)
  {
    WriteBindingsStable(bindings, session, base, pending, [x], |pending|);
    BasePrefix(base, pending, [x], |pending|);
  }

  lemma OneMoreLinks(base: nat, pending: seq<Pending>, x: Pending)
    requires LinksOk(|pending|, x.links)
    ensures var at := Base(base, pending, |pending|);
      PlannedIds(base, pending + [x], |pending|) == Interval(at, at + x.count)
    ensures Filled(base, pending + [x], x.links) == Filled(base, pending, x.links)
  {
    BasePrefix(base, pending, [x], |pending|);
    FilledStable(base, pending, [x], x.links);
  }

  lemma OneMoreRelations(relations: seq<Group>, base: nat, pending: seq<Pending>, x: Pending)
    requires forall i :: 0 <= i < |pending| ==> LinksOk(i, pending[i].links)
    requires LinksOk(|pending|, x.links)
    ensures WriteRelations(relations, base, pending + [x], |pending| + 1)
         == WriteRelations(relations, base, pending, |pending|) + LinksOf(base, pending + [x], |pending|)
  {
    WriteRelationsStable(relations, base, pending, [x], |pending|);
  }

  // ---- one more line -----------------------------------------------------

  /** What the plan knows about one line's entry is what the ledger holds. */
  ghost predicate LineFits(base: nat, plan: Plan, at: Where, origins: map<(string, string), Source>, p: Tables,
                           here: Where,
                           line: Option<Entry>) {
    && here == at.(position := at.position + |plan.drafts|)
    && |p.rows| == Base(base, plan.pending, |plan.pending|)
    && (IsEntry(line) ==>
      EntryFits(base, plan, at.who.session, at.fork, origins, p.events, line.value.uid.value, line.value.digest))
  }

  ghost predicate EntryFits(base: nat, plan: Plan, session: string, fork: Fork, origins: map<(string, string), Source>,
                            events: seq<Event>, uid: string, digest: string) {
    && KnownFits(base, plan.pending, KnownOf(plan.known, uid), uid, Versions(events, session, uid))
    && (fork.Forked? ==> SourceFits(origins, uid, digest, Origin(events, session, uid, digest)))
  }

  lemma LineReady(t: Tables, at: Where, linked: bool, uids: set<string>, plan: Plan, p: Point,
                  origins: map<(string, string), Source>, here: Where, line: Option<Entry>)
    requires Agrees(t, at, linked, uids, plan, p)
      && (at.fork.Forked? ==> OriginsFit(p.tables.events, at.who.session, uids, origins))
    requires here == at.(position := at.position + |plan.drafts|) && (IsEntry(line) ==> line.value.uid.value in uids)
    ensures LineFits(|t.rows|, plan, at, origins, p.tables, here, line)
  {
    WriteRowsStable(t.rows, at.who.session, plan.pending, [], |plan.pending|);
  }

  /** In-memory versions and origins decide as the ledger does. */
  lemma SameOutcome(base: nat, plan: Plan, at: Where, origins: map<(string, string), Source>, p: Tables, here: Where,
                    line: Option<Entry>)
    requires LineFits(base, plan, at, origins, p, here, line)
    ensures PlanOutcome(plan, at, origins, line) == OutcomeOf(p, here, line)
    ensures SourceOf(at, origins, line).Some? <==> OriginOf(p, here, line).Some?
    ensures var origin := OriginOf(p, here, line); origin.Some? ==> IsEntry(line)
    ensures var origin := OriginOf(p, here, line);
      origin.Some? ==> SourceOf(at, origins, line).value
                       == Source(origin.value.session,
                         Stored(origin.value.ids, Zip(line.value.uid.value, origin.value.ids)))
  {
    if IsEntry(line) {
      var uid := line.value.uid.value;
      assert KnownDigests(KnownOf(plan.known, uid)) == Digests(Versions(p.events, at.who.session, uid));
    }
  }

  lemma EventOfDraft(p: Tables, here: Where, plan: Plan, raw: Bytes, line: Option<Entry>, o: Outcome)
    requires o.Again? ==> IsEntry(line) && o.version < |KnownOf(plan.known, line.value.uid.value)|
    requires o.Again? ==> o.version < |Versions(p.events, here.who.session, line.value.uid.value)|
    ensures var d, e := NewDraft(plan, raw, line, o), NewEvent(p, here, raw, line, o);
      e == EventOf(p.events, here.who.session, here.generation, here.position, d.raw, d.line, d.disposition, e.ids,
        d.note)
  {
  }

  lemma DraftIdsFit(base: nat, plan: Plan, at: Where, origins: map<(string, string), Source>, p: Tables, here: Where,
                    raw: Bytes, line: Option<Entry>, more: seq<Pending>, o: Outcome)
    requires LineFits(base, plan, at, origins, p, here, line)
    requires o == PlanOutcome(plan, at, origins, line) == OutcomeOf(p, here, line)
    requires if o.Project? then |more| == 1 && more[0].count == o.count else more == []
    ensures DraftIds(base, plan.pending + more, NewDraft(plan, raw, line, o)) == NewEvent(p, here, raw, line, o).ids
  {
    match o
    case Keep(_) =>
    case Again(k) =>
      RefStable(base, plan.pending, more, KnownOf(plan.known, line.value.uid.value)[k].ref);
    case Project(_, _, _, count) =>
      BasePrefix(base, plan.pending, more, |plan.pending|);
      assert (plan.pending + more)[|plan.pending|] == more[0];
  }

  lemma BatchEvent(t: Tables, plan: Plan, at: Where, origins: map<(string, string), Source>, p: Tables, here: Where,
                   raw: Bytes, line: Option<Entry>, more: seq<Pending>, o: Outcome)
    requires LineFits(|t.rows|, plan, at, origins, p, here, line) && RefsOk(plan)
    requires p.events == WriteEvents(t.events, |t.rows|, at, plan.pending, plan.drafts, |plan.drafts|)
    requires o == PlanOutcome(plan, at, origins, line) == OutcomeOf(p, here, line)
    requires if o.Project? then |more| == 1 && more[0].count == o.count else more == []
    ensures WriteEvents(t.events, |t.rows|, at, plan.pending + more, plan.drafts + [NewDraft(plan, raw, line, o)],
      |plan.drafts| + 1)
         == p.events + [NewEvent(p, here, raw, line, o)]
  {
    DraftIdsFit(|t.rows|, plan, at, origins, p, here, raw, line, more, o);
    EventOfDraft(p, here, plan, raw, line, o);
    CommitEvent(t, at, plan, more, NewDraft(plan, raw, line, o));
  }

  lemma NewRelationsAre(p: Tables, here: Where, line: Option<Entry>, o: Outcome)
    requires Valid(p) && o.Project? && IsEntry(line)
    ensures var uid, origin := line.value.uid.value, OriginOf(p, here, line);
      var ids, held := Interval(|p.rows|, |p.rows| + o.count), Versions(p.events, here.who.session, uid);
      NewRelations(p, here, line, o)
      == (if held == [] then [] else [Group(ids, Supersedes, Zip(uid, Last(held)))])
         + if o.disposition == ForkCopy && origin.Some? then [Group(ids, ForkCopyOf, Zip(uid, origin.value.ids))]
           else []
  {
    PreviousReloads(p, here.who.session, line.value.uid.value);
    OriginReloads(p, here.who.session, line.value.uid.value, line.value.digest);
  }

  lemma FilledFits(base: nat, pending: seq<Pending>, known: seq<Known>, uid: string, held: seq<Held>, o: Outcome,
                   source: Option<Source>, ids: seq<nat>)
    requires KnownFits(base, pending, known, uid, held)
    requires source.Some? ==> source.value.ref == Stored(ids, Zip(uid, ids))
    ensures var links := LinksFor(known, o, source);
      && LinksOk(|pending|, links)
      && Filled(base, pending, links)
         == (if held == [] then [] else [(Supersedes, Zip(uid, Last(held)))])
            + if o.Project? && o.disposition == ForkCopy && source.Some? then [(ForkCopyOf, Zip(uid, ids))] else []
  {
  }

  lemma BatchRelations(base: nat, plan: Plan, at: Where, origins: map<(string, string), Source>, p: Tables, here: Where,
                       line: Option<Entry>, o: Outcome)
    requires LineFits(base, plan, at, origins, p, here, line) && Valid(p)
    requires o == PlanOutcome(plan, at, origins, line) && o.Project? && IsEntry(line)
    ensures var links := LinksFor(KnownOf(plan.known, line.value.uid.value), o, SourceOf(at, origins, line));
      && LinksOk(|plan.pending|, links)
      && LinkAll(Interval(|p.rows|, |p.rows| + o.count), Filled(base, plan.pending, links)) ==
        NewRelations(p, here, line, o)
  {
    var uid, origin := line.value.uid.value, OriginOf(p, here, line);
    var ids := Interval(|p.rows|, |p.rows| + o.count);
    var held, source := Versions(p.events, at.who.session, uid), SourceOf(at, origins, line);
    SameOutcome(base, plan, at, origins, p, here, line);
    FilledFits(base, plan.pending, KnownOf(plan.known, uid), uid, held, o, source,
      if origin.Some? then origin.value.ids else []);
    NewRelationsAre(p, here, line, o);
  }

  lemma PlanKept(t: Tables, plan: Plan, at: Where, linked: bool, origins: map<(string, string), Source>, p: Point,
                 here: Where,
                 raw: Bytes, line: Option<Entry>, o: Outcome)
    requires LineFits(|t.rows|, plan, at, origins, p.tables, here, line) && RefsOk(plan)
    requires p.tables == Commit(t, at, plan).(links := p.tables.links)
    requires o == PlanOutcome(plan, at, origins, line) == OutcomeOf(p.tables, here, line) && !o.Project?
    ensures var t', plan' := Taken(p, here, raw, line, o, OriginOf(p.tables, here, line)).tables,
                             Scheduled(plan, at, linked, raw, line, o, SourceOf(at, origins, line));
      t' == Commit(t, at, plan').(links := t'.links)
  {
    BatchEvent(t, plan, at, origins, p.tables, here, raw, line, [], o);
    assert plan.pending + [] == plan.pending;
  }

  /** Planning a projected entry schedules exactly what taking it writes. */
  lemma EntryParts(t: Tables, plan: Plan, at: Where, linked: bool, origins: map<(string, string), Source>, p: Tables,
                   here: Where,
                   raw: Bytes, line: Option<Entry>, o: Outcome, x: Pending)
    requires LineFits(|t.rows|, plan, at, origins, p, here, line) && RefsOk(plan) && Valid(p)
    requires p == Commit(t, at, plan).(links := p.links)
    requires o == PlanOutcome(plan, at, origins, line) == OutcomeOf(p, here, line) && o.Project?
    requires x == NewPending(plan, raw, line, o, SourceOf(at, origins, line))
    ensures var session, base, pending, n := at.who.session, |t.rows|, plan.pending + [x], |plan.pending| + 1;
      && WriteRows(t.rows, session, pending, n) == p.rows + NewRows(session, raw, o.count)
      && WriteBindings(t.bindings, session, base, pending, n)
         == BindRows(p.bindings, session, line.value.uid.value, o.kind, o.proof, |p.rows|, o.count, o.count)
      && WriteRelations(t.relations, base, pending, n) == p.relations + NewRelations(p, here, line, o)
  {
    OneMoreRows(t.rows, at.who.session, plan.pending, x);
    OneMoreBindings(t.bindings, at.who.session, |t.rows|, plan.pending, x);
    EntryRelations(t, plan, at, origins, p, here, raw, line, o, x);
  }

  lemma EntryLinks(base: nat, plan: Plan, at: Where, origins: map<(string, string), Source>, p: Tables, here: Where,
                   raw: Bytes, line: Option<Entry>, o: Outcome, x: Pending)
    requires LineFits(base, plan, at, origins, p, here, line) && Valid(p)
    requires o == PlanOutcome(plan, at, origins, line) && o.Project?
    requires x == NewPending(plan, raw, line, o, SourceOf(at, origins, line))
    ensures LinksOk(|plan.pending|, x.links)
    ensures LinksOf(base, plan.pending + [x], |plan.pending|) == NewRelations(p, here, line, o)
  {
    BatchRelations(base, plan, at, origins, p, here, line, o);
    OneMoreLinks(base, plan.pending, x);
    assert (plan.pending + [x])[|plan.pending|] == x;
  }

  lemma EntryRelations(t: Tables, plan: Plan, at: Where, origins: map<(string, string), Source>, p: Tables, here: Where,
                       raw: Bytes, line: Option<Entry>, o: Outcome, x: Pending)
    requires LineFits(|t.rows|, plan, at, origins, p, here, line) && RefsOk(plan) && Valid(p)
    requires p.relations == WriteRelations(t.relations, |t.rows|, plan.pending, |plan.pending|)
    requires o == PlanOutcome(plan, at, origins, line) && o.Project?
    requires x == NewPending(plan, raw, line, o, SourceOf(at, origins, line))
    ensures WriteRelations(t.relations, |t.rows|, plan.pending + [x], |plan.pending| + 1) == p.relations
      + NewRelations(p, here, line, o)
  {
    EntryLinks(|t.rows|, plan, at, origins, p, here, raw, line, o, x);
    OneMoreRelations(t.relations, |t.rows|, plan.pending, x);
  }

  lemma PlanEntry(t: Tables, plan: Plan, at: Where, linked: bool, origins: map<(string, string), Source>, p: Point,
                  here: Where,
                  raw: Bytes, line: Option<Entry>, o: Outcome)
    requires LineFits(|t.rows|, plan, at, origins, p.tables, here, line) && RefsOk(plan) && Valid(p.tables)
    requires p.tables == Commit(t, at, plan).(links := p.tables.links)
    requires o == PlanOutcome(plan, at, origins, line) == OutcomeOf(p.tables, here, line) && o.Project?
    ensures var t', plan' := Taken(p, here, raw, line, o, OriginOf(p.tables, here, line)).tables,
                             Scheduled(plan, at, linked, raw, line, o, SourceOf(at, origins, line));
      t' == Commit(t, at, plan').(links := t'.links)
  {
    var x := NewPending(plan, raw, line, o, SourceOf(at, origins, line));
    BatchEvent(t, plan, at, origins, p.tables, here, raw, line, [x], o);
    EntryParts(t, plan, at, linked, origins, p.tables, here, raw, line, o, x);
  }

  lemma PlanTables(t: Tables, plan: Plan, at: Where, linked: bool, origins: map<(string, string), Source>, p: Point,
                   here: Where,
                   raw: Bytes, line: Option<Entry>)
    requires LineFits(|t.rows|, plan, at, origins, p.tables, here, line) && RefsOk(plan) && Valid(p.tables)
    requires p.tables == Commit(t, at, plan).(links := p.tables.links)
    ensures var t', plan' := Step(p, here, raw, line).tables, PlanLine(plan, at, linked, origins, raw, line);
      t' == Commit(t, at, plan').(links := t'.links)
  {
    var o := PlanOutcome(plan, at, origins, line);
    SameOutcome(|t.rows|, plan, at, origins, p.tables, here, line);
    if o.Project? {
      PlanEntry(t, plan, at, linked, origins, p, here, raw, line, o);
    } else {
      PlanKept(t, plan, at, linked, origins, p, here, raw, line, o);
    }
  }

  lemma PlanRefs(base: nat, plan: Plan, at: Where, linked: bool, origins: map<(string, string), Source>, p: Tables,
                 here: Where,
                 raw: Bytes, line: Option<Entry>)
    requires LineFits(base, plan, at, origins, p, here, line) && RefsOk(plan)
    ensures RefsOk(PlanLine(plan, at, linked, origins, raw, line))
  {
    SameOutcome(base, plan, at, origins, p, here, line);
  }

  lemma PlanKnown(base: nat, plan: Plan, at: Where, linked: bool, origins: map<(string, string), Source>, p: Tables,
                  here: Where,
                  raw: Bytes, line: Option<Entry>, o: Outcome, uid: string)
    requires LineFits(base, plan, at, origins, p, here, line)
    requires o == PlanOutcome(plan, at, origins, line) == OutcomeOf(p, here, line)
    requires KnownFits(base, plan.pending, KnownOf(plan.known, uid), uid, Versions(p.events, at.who.session, uid))
    ensures var plan' := Scheduled(plan, at, linked, raw, line, o, SourceOf(at, origins, line));
      KnownFits(base, plan'.pending, KnownOf(plan'.known, uid), uid,
                Versions(p.events + [NewEvent(p, here, raw, line, o)], at.who.session, uid))
  {
    var held, e := Versions(p.events, at.who.session, uid), NewEvent(p, here, raw, line, o);
    VersionsGrow(p.events, e, at.who.session, uid);
    DecideFacts(p, here, line);
    if o.Project? {
      EventProjects(p, here, raw, line, o, uid);
      var x := NewPending(plan, raw, line, o, SourceOf(at, origins, line));
      KnownStable(base, plan.pending, [x], KnownOf(plan.known, uid), uid, held);
      if line.value.uid.value == uid {
        OneMoreKnown(base, plan, x, KnownOf(plan.known, uid), held, line.value.digest, HeldBy(e));
      }
    } else {
      assert !IsVersion(e, at.who.session, uid);
    }
  }

  lemma EventProjects(p: Tables, here: Where, raw: Bytes, line: Option<Entry>, o: Outcome, uid: string)
    requires o.Project? && IsEntry(line) && o.disposition in {Fresh, Revised, ForkCopy}
    ensures var e := NewEvent(p, here, raw, line, o);
      && (IsVersion(e, here.who.session, uid) <==> line.value.uid.value == uid)
      && HeldBy(e) == Held(here.who.session, line.value.digest, Interval(|p.rows|, |p.rows| + o.count))
  {
  }

  lemma OneMoreKnown(base: nat, plan: Plan, x: Pending, known: seq<Known>, held: seq<Held>, digest: string, h: Held)
    requires KnownFits(base, plan.pending + [x], known, x.uid, held)
    requires var at := Base(base, plan.pending, |plan.pending|); h.ids == Interval(at, at + x.count)
    requires h.digest == digest
    ensures KnownFits(base, plan.pending + [x], known + [Known(digest, Planned(|plan.pending|))], x.uid, held + [h])
  {
    NewKnown(base, plan, x);
  }

  lemma KnownStable(base: nat, pending: seq<Pending>, more: seq<Pending>, known: seq<Known>, uid: string,
                    held: seq<Held>)
    requires KnownFits(base, pending, known, uid, held)
    ensures KnownFits(base, pending + more, known, uid, held)
  {
    forall i | 0 <= i < |known|
      ensures RefOk(|pending + more|, known[i].ref)
      ensures RefIds(base, pending + more, known[i].ref) == RefIds(base, pending, known[i].ref)
      ensures RefRows(base, pending + more, known[i].ref) == RefRows(base, pending, known[i].ref)
    {
      RefStable(base, pending, more, known[i].ref);
    }
  }

  lemma NewKnown(base: nat, plan: Plan, x: Pending)
    ensures var pending, at := plan.pending + [x], Base(base, plan.pending, |plan.pending|);
      && RefIds(base, pending, Planned(|plan.pending|)) == Interval(at, at + x.count)
      && RefRows(base, pending, Planned(|plan.pending|)) == Zip(x.uid, Interval(at, at + x.count))
  {
    BasePrefix(base, plan.pending, [x], |plan.pending|);
    assert (plan.pending + [x])[|plan.pending|] == x;
  }

  lemma PlanLinks(t: Tables, plan: Plan, at: Where, linked: bool, p: Point, here: Where,
                  raw: Bytes, line: Option<Entry>, o: Outcome, origin: Option<Held>, source: Option<Source>)
    requires here == at.(position := at.position + |plan.drafts|)
    requires o.Again? || o.Project? ==> IsEntry(line)
    requires o.Again? ==> o.version < |Versions(p.tables.events, at.who.session, line.value.uid.value)|
    requires o.Again? ==> o.version < |KnownOf(plan.known, line.value.uid.value)|
    requires o.Project? && o.disposition == ForkCopy ==> at.fork.Forked?
    requires source.Some? <==> origin.Some?
    requires source.Some? ==> source.value.session == origin.value.session
    requires p.tables.links == t.links + AgentLink(at.who, at.position == 0 && plan.drafts != [])
      + ParentLink(at.who, plan.parent)
    requires p.fork == ForkStateOf(plan, linked) && (linked ==> plan.parent.None?)
    ensures var p', plan' := Taken(p, here, raw, line, o, origin), Scheduled(plan, at, linked, raw, line, o, source);
      && plan'.drafts != []
      && p'.tables.links == t.links + AgentLink(at.who, at.position == 0) + ParentLink(at.who, plan'.parent)
      && p'.fork == ForkStateOf(plan', linked) && (linked ==> plan'.parent.None?)
  {
    var p', plan' := Taken(p, here, raw, line, o, origin), Scheduled(plan, at, linked, raw, line, o, source);
    assert p'.tables.links == p.tables.links + NewLinks(here, p.fork, o);
    assert AgentLink(at.who, at.position == 0) == AgentLink(at.who, at.position == 0 && plan.drafts != [])
      + AgentLink(at.who, here.position == 0);
    if EndsPrefix(at.fork, p.fork, o) {
      assert plan.parent.None?;
    }
  }

  lemma StepAddsEvent(p: Point, here: Where, raw: Bytes, line: Option<Entry>)
    ensures Step(p, here, raw, line).tables.events == p.tables.events
      + [NewEvent(p.tables, here, raw, line, OutcomeOf(p.tables, here, line))]
    ensures NewEvent(p.tables, here, raw, line, OutcomeOf(p.tables, here, line)).session == here.who.session
  {
  }

  /** Planning one more line keeps the agreement with the line taken by itself. */
  lemma PlanKeeps(t: Tables, at: Where, linked: bool, uids: set<string>, plan: Plan, p: Point,
                  origins: map<(string, string), Source>, here: Where, raw: Bytes, line: Option<Entry>)
    requires Agrees(t, at, linked, uids, plan, p)
      && (at.fork.Forked? ==> OriginsFit(p.tables.events, at.who.session, uids, origins))
    requires here == at.(position := at.position + |plan.drafts|) && (IsEntry(line) ==> line.value.uid.value in uids)
    ensures Agrees(t, at, linked, uids, PlanLine(plan, at, linked, origins, raw, line), Step(p, here, raw, line))
  {
    var plan', p' := PlanLine(plan, at, linked, origins, raw, line), Step(p, here, raw, line);
    LineReady(t, at, linked, uids, plan, p, origins, here, line);
    PlanTables(t, plan, at, linked, origins, p, here, raw, line);
    PlanRefs(|t.rows|, plan, at, linked, origins, p.tables, here, raw, line);
    var o := OutcomeOf(p.tables, here, line);
    SameOutcome(|t.rows|, plan, at, origins, p.tables, here, line);
    DecideFacts(p.tables, here, line);
    PlanLinks(t, plan, at, linked, p, here, raw, line, o, OriginOf(p.tables, here, line), SourceOf(at, origins, line));
    StepValid(p, here, raw, line);
    StepAddsEvent(p, here, raw, line);
    forall uid | uid in uids
      ensures KnownFits(|t.rows|, plan'.pending, KnownOf(plan'.known, uid), uid,
        Versions(p'.tables.events, at.who.session, uid))
    {
      PlanKnown(|t.rows|, plan, at, linked, origins, p.tables, here, raw, line, o, uid);
    }
  }

  lemma OriginsKept(events: seq<Event>, e: Event, session: string, uids: set<string>,
                    origins: map<(string, string), Source>)
    requires OriginsFit(events, session, uids, origins) && e.session == session
    ensures OriginsFit(events + [e], session, uids, origins)
  {
    forall uid: string, digest: string | uid in uids
      ensures SourceFits(origins, uid, digest, Origin(events + [e], session, uid, digest))
    {
      OriginGrows(events, e, session, uid, digest);
    }
  }
}
