/**
  What becomes of every line a run takes in: which are kept raw, which are duplicates, new entries, revisions and a
  fork's copies, how their rows are bound, and which sessions are linked to which.  It is said of the ledger's events
  and the lines themselves.
 */
module CaptureTold {
  import opened Wrappers
  import opened CaptureCursor
  import opened CaptureLedger
  import opened CaptureValid
  import opened CaptureLinks
  import opened CaptureRecord
  import opened CaptureRun

  // ---- one event and those before it -------------------------------------

  /** An earlier event wrote rows for this entry of the session. */
  ghost predicate VersionBefore(before: seq<Event>, session: string, uid: string) {
    exists j :: 0 <= j < |before| && IsVersion(before[j], session, uid)
  }

  /** An earlier event wrote rows for this very content. */
  predicate SameContent(e: Event, session: string, uid: string, digest: string) {
    IsVersion(e, session, uid) && e.digest == Some(digest)
  }

  ghost predicate ContentBefore(before: seq<Event>, session: string, uid: string, digest: string) {
    exists j :: 0 <= j < |before| && SameContent(before[j], session, uid, digest)
  }

  /** Another session wrote this content itself, not as a copy. */
  predicate Writes(e: Event, session: string, uid: string, digest: string) {
    e.session != session && e.uid == Some(uid) && e.digest == Some(digest) && e.disposition in {Fresh, Revised}
  }

  ghost predicate WriterBefore(before: seq<Event>, session: string, uid: string, digest: string) {
    exists j :: 0 <= j < |before| && Writes(before[j], session, uid, digest)
  }

  /** The entry was written before its session was forked off; with either time unknown, its writer is on record. */
  ghost predicate FromBefore(before: seq<Event>, session: string, line: Entry, fork: Fork)
    requires line.uid.Some?
  {
    && fork.Forked?
    && if fork.started.Some? && line.written.Some? then line.written.value < fork.started.value
       else WriterBefore(before, session, line.uid.value, line.digest)
  }

  /** What the event must be.  A line that is no entry, or has no uid, or cannot be projected is kept raw, with a note
      for the last two; content that was written before is a duplicate and names its rows; everything else gets its
      rows: a copy when it is from before the fork, else new or a revision. */
  ghost predicate Tells(before: seq<Event>, e: Event, line: Option<Entry>, fork: Fork) {
    if line.None? || line.value.cls != Projected then e.disposition == Raw && e.note == NoNote && e.ids == None
    else if line.value.uid.None? then e.disposition == Raw && e.note == WithoutUuid && e.ids == None
    else
      var uid, digest := line.value.uid.value, line.value.digest;
      if ContentBefore(before, e.session, uid, digest) then
        && e.disposition == Duplicate && e.note == NoNote
        && exists j :: 0 <= j < |before| && SameContent(before[j], e.session, uid, digest)
                       && e.ids == Some(Ids(before[j]))
      else if line.value.rows.None? then e.disposition == Raw && e.note == ProjectionError && e.ids == None
      else
        && e.note == NoNote && e.ids.Some? && |e.ids.value| == line.value.rows.value
        && e.disposition == if FromBefore(before, e.session, line.value, fork) then ForkCopy
                            else if VersionBefore(before, e.session, uid) then Revised else Fresh
  }

  ghost predicate Told(events: seq<Event>, i: nat, parse: Parser, fork: Fork)
    requires i < |events|
  {
    Tells(events[..i], events[i], parse(events[i].line), fork)
  }

  lemma OriginMeans(events: seq<Event>, session: string, uid: string, digest: string)
    ensures Origin(events, session, uid, digest).Some? <==> WriterBefore(events, session, uid, digest)
  {
    if j :| 0 <= j < |events| && Writes(events[j], session, uid, digest) {
      assert IsOrigin(events[j], session, uid, digest);
    }
    if i :| 0 <= i < |events| && IsFirstOrigin(events, i, session, uid, digest) {
      assert Writes(events[i], session, uid, digest);
    }
  }

  /** A found digest stands at the place of an earlier event with this content. */
  lemma FoundMeans(events: seq<Event>, session: string, uid: string, digest: string)
    requires forall i :: 0 <= i < |events| && Projects(events[i]) ==> events[i].digest.Some?
    ensures var held := Versions(events, session, uid);
      var same := Find(Digests(held), digest);
      && (same.Some? <==> ContentBefore(events, session, uid, digest))
      && (same.Some? ==>
            exists j :: 0 <= j < |events| && SameContent(events[j], session, uid, digest)
                        && held[same.value].ids == Ids(events[j]))
  {
    PlacesOf(events, session, uid);
    var held, places := Versions(events, session, uid), Places(events, session, uid);
    var same := Find(Digests(held), digest);
    if same.Some? {
      var j := places[same.value];
      assert held[same.value] == HeldBy(events[j]);
      assert SameContent(events[j], session, uid, digest);
    }
    if j :| 0 <= j < |events| && SameContent(events[j], session, uid, digest) {
      assert j in places;
      var k :| 0 <= k < |places| && places[k] == j;
      assert Digests(held)[k] == digest;
    }
  }

  /** The event a step adds is what it must be. */
  lemma StepTells(t: Tables, at: Where, raw: Bytes, parse: Parser)
    requires Recorded(t.events, parse)
    ensures var e := NewEvent(t, at, raw, parse(raw), OutcomeOf(t, at, parse(raw)));
      Tells(t.events, e, parse(raw), at.fork) && e.session == at.who.session && e.line == raw
  {
    var line := parse(raw);
    DecideFacts(t, at, line);
    if IsEntry(line) {
      EntryTells(t, at, raw, parse);
    }
  }

  lemma EntryTells(t: Tables, at: Where, raw: Bytes, parse: Parser)
    requires Recorded(t.events, parse) && IsEntry(parse(raw))
    ensures var e := NewEvent(t, at, raw, parse(raw), OutcomeOf(t, at, parse(raw)));
      Tells(t.events, e, parse(raw), at.fork) && e.session == at.who.session && e.line == raw
  {
    var line := parse(raw);
    var s, uid, digest := at.who.session, line.value.uid.value, line.value.digest;
    DecideFacts(t, at, line);
    assert forall i :: 0 <= i < |t.events| && Projects(t.events[i]) ==> Parsed(t.events[i], parse);
    FoundMeans(t.events, s, uid, digest);
    if OutcomeOf(t, at, line).Project? {
      DispositionTells(t, at, line);
    }
  }

  lemma DispositionTells(t: Tables, at: Where, line: Option<Entry>)
    requires IsEntry(line) && OutcomeOf(t, at, line).Project?
    ensures OutcomeOf(t, at, line).disposition ==
      if FromBefore(t.events, at.who.session, line.value, at.fork) then ForkCopy
      else if VersionBefore(t.events, at.who.session, line.value.uid.value) then Revised else Fresh
  {
    var s, uid, digest := at.who.session, line.value.uid.value, line.value.digest;
    OriginMeans(t.events, s, uid, digest);
    VersionsEmpty(t.events, s, uid);
    assert HasVersion(t.events, s, uid) <==> VersionBefore(t.events, s, uid);
  }

  // ---- rows and their bindings -------------------------------------------

  /** The rows of an entry are bound to their place in it; as canonical ones for its first version, and with the proof
      of a copy exactly for a copy. */
  ghost predicate Bound(t: Tables, i: nat)
    requires i < |t.events|
  {
    var e := t.events[i];
    Projects(e) && e.uid.Some? ==>
      forall k :: 0 <= k < |Ids(e)| ==>
        && Ids(e)[k] in t.bindings
        && t.bindings[Ids(e)[k]] ==
             Binding(e.session, if |Ids(e)| == 1 then Whole(e.uid.value) else Part(e.uid.value, k),
                     if VersionBefore(t.events[..i], e.session, e.uid.value) then Revision else Canonical,
                     if e.disposition == ForkCopy then CopyProof else TranscriptUuid)
  }

  /** Every event is what it must be, under the fork it was taken in with, and its rows are bound so. */
  ghost predicate Story(t: Tables, forks: seq<Fork>, parse: Parser) {
    && |forks| == |t.events|
    && (forall i :: 0 <= i < |t.events| ==> Told(t.events, i, parse, forks[i]))
    && (forall i :: 0 <= i < |t.events| ==> Bound(t, i))
  }

  lemma StepBound(p: Point, at: Where, raw: Bytes, parse: Parser)
    requires Sound(p.tables, parse)
    ensures var t' := Step(p, at, raw, parse(raw)).tables;
      |t'.events| == |p.tables.events| + 1 && Bound(t', |p.tables.events|)
  {
    var t, line := p.tables, parse(raw);
    var o := OutcomeOf(t, at, line);
    DecideFacts(t, at, line);
    var t' := Step(p, at, raw, line).tables;
    var e := t'.events[|t.events|];
    assert t'.events[..|t.events|] == t.events;
    if o.Project? {
      var uid := line.value.uid.value;
      StepBindings(t, at, line);
      KindTold(t, at, line);
      assert e.uid == Some(uid) && e.session == at.who.session && e.disposition == o.disposition;
      forall k | 0 <= k < |Ids(e)|
        ensures Ids(e)[k] in t'.bindings
        ensures t'.bindings[Ids(e)[k]] == Binding(at.who.session, RowUidOf(uid, o.count, k), o.kind, o.proof)
      {
        assert Ids(e)[k] == |t.rows| + k;
      }
    }
  }

  lemma KindTold(t: Tables, at: Where, line: Option<Entry>)
    requires OutcomeOf(t, at, line).Project? && IsEntry(line)
    ensures var o, uid := OutcomeOf(t, at, line), line.value.uid.value;
      && o.kind == (if VersionBefore(t.events, at.who.session, uid) then Revision else Canonical)
      && o.proof == (if o.disposition == ForkCopy then CopyProof else TranscriptUuid)
  {
    var uid := line.value.uid.value;
    DecideFacts(t, at, line);
    VersionsEmpty(t.events, at.who.session, uid);
    assert HasVersion(t.events, at.who.session, uid) <==> VersionBefore(t.events, at.who.session, uid);
  }

  lemma StepStory(p: Point, at: Where, raw: Bytes, parse: Parser, forks: seq<Fork>)
    requires Sound(p.tables, parse) && Story(p.tables, forks, parse)
    ensures Story(Step(p, at, raw, parse(raw)).tables, forks + [at.fork], parse)
  {
    var t, t' := p.tables, Step(p, at, raw, parse(raw)).tables;
    var e := NewEvent(t, at, raw, parse(raw), OutcomeOf(t, at, parse(raw)));
    StepTells(t, at, raw, parse);
    StepBound(p, at, raw, parse);
    StepWrites(p, at, raw, parse(raw));
    assert t'.events == t.events + [e];
    forall i | 0 <= i < |t'.events|
      ensures Told(t'.events, i, parse, (forks + [at.fork])[i]) && Bound(t', i)
    {
      if i < |t.events| {
        assert Told(t.events, i, parse, forks[i]) && Bound(t, i);
        assert t'.events[..i] == t.events[..i];
      } else {
        assert t'.events[..i] == t.events;
      }
    }
  }

  // ---- links between sessions --------------------------------------------

  /** An entry of a fork that is its own: it got its rows and is no copy. */
  predicate OwnAt(events: seq<Event>, forks: seq<Fork>, s: string, i: nat)
    requires |forks| == |events|
  {
    i < |events| && events[i].session == s && forks[i].Forked? && events[i].disposition in {Fresh, Revised}
  }

  ghost predicate FirstOwn(events: seq<Event>, forks: seq<Fork>, s: string, i: nat)
    requires |forks| == |events|
  {
    OwnAt(events, forks, s, i) && forall j: nat :: j < i ==> !OwnAt(events, forks, s, j)
  }

  /** The session that wrote what the fork's latest copy copies, among the copies whose writer is on record. */
  function LatestWriter(events: seq<Event>, s: string): Option<string> {
    if events == [] then None
    else
      var before, e := events[..|events| - 1], events[|events| - 1];
      var origin := if e.session == s && e.disposition == ForkCopy && e.uid.Some? && e.digest.Some?
        then Origin(before, s, e.uid.value, e.digest.value) else None;
      if origin.Some? then Some(origin.value.session) else LatestWriter(before, s)
  }

  /** A fork is linked to the session it was copied from exactly at its first own entry. */
  ghost predicate ForksLinked(links: set<Link>, events: seq<Event>, forks: seq<Fork>)
    requires |forks| == |events|
  {
    forall c, p :: ForkOf(c, p) in links <==>
      exists i: nat :: FirstOwn(events, forks, c, i) && p != "" && p != c && LatestWriter(events[..i], c) == Some(p)
  }

  /** A subagent is linked to the session it belongs to exactly by its first line. */
  ghost predicate AgentsLinked(links: set<Link>, events: seq<Event>, agents: map<string, Option<string>>) {
    forall c, p :: SubagentOf(c, p) in links <==>
      c in agents && agents[c] == Some(p)
      && exists i :: 0 <= i < |events| && events[i].session == c && events[i].position == 0
  }

  /** What the cursor of a fork remembers. */
  ghost predicate Remembers(events: seq<Event>, forks: seq<Fork>, s: string, st: ForkState)
    requires |forks| == |events|
  {
    && (st.linked <==> exists i: nat :: OwnAt(events, forks, s, i))
    && st.copiedFrom == LatestWriter(events, s)
  }

  lemma OwnGrows(events: seq<Event>, forks: seq<Fork>, e: Event, fork: Fork, s: string, i: nat)
    requires |forks| == |events|
    ensures OwnAt(events + [e], forks + [fork], s, i) <==>
      || OwnAt(events, forks, s, i)
      || (i == |events| && e.session == s && fork.Forked? && e.disposition in {Fresh, Revised})
  {
  }

  lemma FirstGrows(events: seq<Event>, forks: seq<Fork>, e: Event, fork: Fork, s: string, i: nat)
    requires |forks| == |events|
    ensures FirstOwn(events + [e], forks + [fork], s, i) <==>
      || FirstOwn(events, forks, s, i)
      || (i == |events| && e.session == s && fork.Forked? && e.disposition in {Fresh, Revised}
          && forall j: nat :: !OwnAt(events, forks, s, j))
  {
    forall j: nat
      ensures OwnAt(events + [e], forks + [fork], s, j) <==>
        || OwnAt(events, forks, s, j)
        || (j == |events| && e.session == s && fork.Forked? && e.disposition in {Fresh, Revised})
    {
      OwnGrows(events, forks, e, fork, s, j);
    }
  }

  lemma WriterGrows(events: seq<Event>, e: Event, s: string)
    ensures e.session != s ==> LatestWriter(events + [e], s) == LatestWriter(events, s)
    ensures e.disposition != ForkCopy ==> LatestWriter(events + [e], s) == LatestWriter(events, s)
  {
    assert (events + [e])[..|events|] == events;
  }

  /** What other sessions remember is as true after a session's step as before. */
  lemma OthersRemember(events: seq<Event>, forks: seq<Fork>, e: Event, fork: Fork, s: string, st: ForkState)
    requires |forks| == |events| && Remembers(events, forks, s, st) && e.session != s
    ensures Remembers(events + [e], forks + [fork], s, st)
  {
    WriterGrows(events, e, s);
    forall i: nat ensures OwnAt(events + [e], forks + [fork], s, i) <==> OwnAt(events, forks, s, i) {
      OwnGrows(events, forks, e, fork, s, i);
    }
  }

  lemma StepRemembers(p: Point, at: Where, raw: Bytes, line: Option<Entry>, forks: seq<Fork>)
    requires |forks| == |p.tables.events| && Remembers(p.tables.events, forks, at.who.session, p.fork)
    ensures var q := Step(p, at, raw, line);
      |q.tables.events| == |forks| + 1 && Remembers(q.tables.events, forks + [at.fork], at.who.session, q.fork)
  {
    var t, s, o := p.tables, at.who.session, OutcomeOf(p.tables, at, line);
    DecideFacts(t, at, line);
    var e, q := NewEvent(t, at, raw, line, o), Step(p, at, raw, line);
    assert q.tables.events == t.events + [e] && (t.events + [e])[..|t.events|] == t.events;
    WriterGrows(t.events, e, s);
    forall i: nat
      ensures OwnAt(t.events + [e], forks + [at.fork], s, i) <==>
        || OwnAt(t.events, forks, s, i)
        || (i == |t.events| && at.fork.Forked? && e.disposition in {Fresh, Revised})
    {
      OwnGrows(t.events, forks, e, at.fork, s, i);
    }
    assert o.Project? && o.disposition == ForkCopy ==> at.fork.Forked?;
    assert e.disposition in {Fresh, Revised} <==> o.Project? && o.disposition != ForkCopy;
    if i: nat :| OwnAt(t.events, forks, s, i) {
      assert OwnAt(t.events + [e], forks + [at.fork], s, i);
    }
    if at.fork.Forked? && e.disposition in {Fresh, Revised} {
      assert OwnAt(t.events + [e], forks + [at.fork], s, |t.events|);
    }
  }

  lemma StepForks(p: Point, at: Where, raw: Bytes, line: Option<Entry>, forks: seq<Fork>)
    requires |forks| == |p.tables.events| && Remembers(p.tables.events, forks, at.who.session, p.fork)
    requires ForksLinked(p.tables.links, p.tables.events, forks)
    ensures var t' := Step(p, at, raw, line).tables;
      |t'.events| == |forks| + 1 && ForksLinked(t'.links, t'.events, forks + [at.fork])
  {
    var t, o := p.tables, OutcomeOf(p.tables, at, line);
    DecideFacts(t, at, line);
    var e, t' := NewEvent(t, at, raw, line, o), Step(p, at, raw, line).tables;
    assert t'.events == t.events + [e] && t'.links == t.links + NewLinks(at, p.fork, o);
    assert e.disposition in {Fresh, Revised} <==> o.Project? && o.disposition != ForkCopy;
    forall c, parent
      ensures ForkOf(c, parent) in t'.links <==>
        exists i: nat :: FirstOwn(t'.events, forks + [at.fork], c, i) && parent != "" && parent != c
                         && LatestWriter(t'.events[..i], c) == Some(parent)
    {
      LinkGrows(p, at, e, forks, o, c, parent);
    }
  }

  /** A new link to a parent comes exactly with the fork's first own entry. */
  lemma LinkGrows(p: Point, at: Where, e: Event, forks: seq<Fork>, o: Outcome, c: string, parent: string)
    requires |forks| == |p.tables.events| && Remembers(p.tables.events, forks, at.who.session, p.fork)
    requires ForksLinked(p.tables.links, p.tables.events, forks) && e.session == at.who.session
    requires e.disposition in {Fresh, Revised} <==> o.Project? && o.disposition != ForkCopy
    ensures ForkOf(c, parent) in p.tables.links + NewLinks(at, p.fork, o) <==>
      exists i: nat :: FirstOwn(p.tables.events + [e], forks + [at.fork], c, i) && parent != "" && parent != c
                       && LatestWriter((p.tables.events + [e])[..i], c) == Some(parent)
  {
    var events := p.tables.events;
    var all := events + [e];
    forall i: nat | i <= |events| ensures all[..i] == events[..i] {
    }
    forall i: nat
      ensures FirstOwn(all, forks + [at.fork], c, i) <==>
        || FirstOwn(events, forks, c, i)
        || (i == |events| && e.session == c && at.fork.Forked? && e.disposition in {Fresh, Revised}
            && forall j: nat :: !OwnAt(events, forks, c, j))
    {
      FirstGrows(events, forks, e, at.fork, c, i);
    }
    assert events[..|events|] == events;
    assert ForkOf(c, parent) in NewLinks(at, p.fork, o) <==>
      && c == at.who.session && EndsPrefix(at.fork, p.fork, o) && parent != "" && parent != c
      && LatestWriter(events, c) == Some(parent);
    if ForkOf(c, parent) in p.tables.links {
      var i: nat :| FirstOwn(events, forks, c, i) && parent != "" && parent != c
        && LatestWriter(events[..i], c) == Some(parent);
      assert FirstOwn(all, forks + [at.fork], c, i) && all[..i] == events[..i];
    }
    if ForkOf(c, parent) in NewLinks(at, p.fork, o) {
      assert FirstOwn(all, forks + [at.fork], c, |events|) && all[..|events|] == events;
    }
  }

  lemma StepAgents(p: Point, at: Where, raw: Bytes, line: Option<Entry>, agents: map<string, Option<string>>)
    requires AgentsLinked(p.tables.links, p.tables.events, agents)
    requires at.who.session in agents && agents[at.who.session] == at.who.agentOf
    ensures var t' := Step(p, at, raw, line).tables;
      AgentsLinked(t'.links, t'.events, agents)
  {
    var t, o := p.tables, OutcomeOf(p.tables, at, line);
    DecideFacts(t, at, line);
    var e, t' := NewEvent(t, at, raw, line, o), Step(p, at, raw, line).tables;
    assert t'.events == t.events + [e] && t'.links == t.links + NewLinks(at, p.fork, o);
    forall c, parent
      ensures SubagentOf(c, parent) in t'.links <==>
        c in agents && agents[c] == Some(parent)
        && exists i :: 0 <= i < |t'.events| && t'.events[i].session == c && t'.events[i].position == 0
    {
      assert SubagentOf(c, parent) in NewLinks(at, p.fork, o) <==>
        c == at.who.session && at.position == 0 && at.who.agentOf == Some(parent);
      if i :| 0 <= i < |t.events| && t.events[i].session == c && t.events[i].position == 0 {
        assert t'.events[i] == t.events[i];
      }
      assert t'.events[|t.events|] == e;
    }
  }

  // ---- runs --------------------------------------------------------------

  /** The fork every event was taken in with: what the drain of its batch found. */
  ghost function Forks(run: seq<World>, actions: seq<Action>, n: nat): seq<Fork>
    requires n < |run| && |run| == |actions| + 1
  {
    if n == 0 then []
    else
      var before, a, d := Forks(run, actions, n - 1), actions[n - 1], run[n - 1].drain;
      if a.Batch? && d.Some? then before + seq(|a.lines|, _ => d.value.fork) else before
  }

  function Agents(tracks: map<string, Track>): map<string, Option<string>> {
    map s | s in tracks :: tracks[s].who.agentOf
  }

  /** All that is said above, of the whole store. */
  ghost predicate AllTold(w: World, forks: seq<Fork>, parse: Parser) {
    && Story(w.tables, forks, parse)
    && ForksLinked(w.tables.links, w.tables.events, forks)
    && AgentsLinked(w.tables.links, w.tables.events, Agents(w.tracks))
    && (forall s :: s in w.tracks ==> Remembers(w.tables.events, forks, s, w.tracks[s].fork))
  }

  /** In the middle of a session's batch. */
  ghost predicate BatchTold(q: Point, s: string, tracks: map<string, Track>, forks: seq<Fork>, parse: Parser) {
    && Sound(q.tables, parse) && Story(q.tables, forks, parse)
    && ForksLinked(q.tables.links, q.tables.events, forks)
    && AgentsLinked(q.tables.links, q.tables.events, Agents(tracks))
    && Remembers(q.tables.events, forks, s, q.fork)
    && (forall r :: r in tracks && r != s ==> Remembers(q.tables.events, forks, r, tracks[r].fork))
  }

  lemma StepTold(q: Point, at: Where, raw: Bytes, tracks: map<string, Track>, forks: seq<Fork>, parse: Parser)
    requires BatchTold(q, at.who.session, tracks, forks, parse)
    requires at.who.session in tracks && tracks[at.who.session].who == at.who
    ensures BatchTold(Step(q, at, raw, parse(raw)), at.who.session, tracks, forks + [at.fork], parse)
  {
    var line := parse(raw);
    StepSound(q, at, raw, parse);
    StepStory(q, at, raw, parse, forks);
    StepForks(q, at, raw, line, forks);
    StepAgents(q, at, raw, line, Agents(tracks));
    StepRemembers(q, at, raw, line, forks);
    var e := StepEvent(q, at, raw, line);
    forall r | r in tracks && r != at.who.session
      ensures Remembers(q.tables.events + [e], forks + [at.fork], r, tracks[r].fork)
    {
      OthersRemember(q.tables.events, forks, e, at.fork, r, tracks[r].fork);
    }
  }

  lemma NextTold(q: Point, at: Where, raw: Bytes, k: nat, tracks: map<string, Track>, forks: seq<Fork>, parse: Parser)
    requires BatchTold(q, at.who.session, tracks, forks + seq(k, _ => at.fork), parse)
    requires at.who.session in tracks && tracks[at.who.session].who == at.who
    ensures BatchTold(Step(q, at, raw, parse(raw)), at.who.session, tracks, forks + seq(k + 1, _ => at.fork), parse)
  {
    StepTold(q, at, raw, tracks, forks + seq(k, _ => at.fork), parse);
    assert forks + seq(k, _ => at.fork) + [at.fork] == forks + seq(k + 1, _ => at.fork);
  }

  lemma StepsTold(p: Point, at: Where, lines: seq<Bytes>, tracks: map<string, Track>, forks: seq<Fork>, parse: Parser)
    requires BatchTold(p, at.who.session, tracks, forks, parse)
    requires at.who.session in tracks && tracks[at.who.session].who == at.who
    ensures BatchTold(Steps(p, at, lines, parse), at.who.session, tracks, forks + seq(|lines|, _ => at.fork), parse)
  {
    var kept := (q: Point, k: nat) => BatchTold(q, at.who.session, tracks, forks + seq(k, _ => at.fork), parse);
    assert kept(p, 0) by {
      assert forks + seq(0, _ => at.fork) == forks;
    }
    forall q: Point, k: nat | k < |lines| && kept(q, k)
      ensures kept(Step(q, Where(at.who, at.fork, at.generation, at.position + k), lines[k], parse(lines[k])), k + 1)
    {
      NextTold(q, Where(at.who, at.fork, at.generation, at.position + k), lines[k], k, tracks, forks, parse);
    }
    StepsKeep(p, at, lines, parse, kept);
  }

  lemma BatchedTold(w: World, lines: seq<(nat, Bytes)>, forks: seq<Fork>, parse: Parser)
    requires Inv(w, parse) && AllTold(w, forks, parse) && w.drain.Some? && lines != []
    ensures var d := w.drain.value;
      AllTold(Batched(w, d, lines, parse), forks + seq(|lines|, _ => d.fork), parse)
  {
    var d := w.drain.value;
    var track := w.tracks[d.session];
    assert TrackKept(w.tables.events, d.session, track);
    var at := Where(track.who, d.fork, d.cursor.generation, d.cursor.lineIndex);
    StepsTold(Point(w.tables, track.fork), at, Raws(lines), w.tracks, forks, parse);
    BatchEnds(w, d, lines, forks + seq(|lines|, _ => d.fork), parse);
  }

  lemma BatchEnds(w: World, d: Drain, lines: seq<(nat, Bytes)>, forks: seq<Fork>, parse: Parser)
    requires d.session in w.tracks && lines != []
    requires var track := w.tracks[d.session];
      var at := Where(track.who, d.fork, d.cursor.generation, d.cursor.lineIndex);
      BatchTold(Steps(Point(w.tables, track.fork), at, Raws(lines), parse), d.session, w.tracks, forks, parse)
    ensures AllTold(Batched(w, d, lines, parse), forks, parse)
  {
    var w' := Batched(w, d, lines, parse);
    assert Agents(w'.tracks) == Agents(w.tracks);
    forall s | s in w'.tracks ensures Remembers(w'.tables.events, forks, s, w'.tracks[s].fork) {
      assert s != d.session ==> w'.tracks[s] == w.tracks[s];
    }
  }

  /** No other action touches the tables, or what a fork's cursor remembers. */
  lemma OtherTold(w: World, a: Action, forks: seq<Fork>, parse: Parser)
    requires AllTold(w, forks, parse) && Enabled(w, a) && !a.Batch?
    ensures AllTold(Apply(w, a, parse), forks, parse)
  {
    var w' := Apply(w, a, parse);
    assert w'.tables == w.tables && w'.tracks.Keys == w.tracks.Keys;
    forall s | s in w'.tracks ensures w'.tracks[s].fork == w.tracks[s].fork && w'.tracks[s].who == w.tracks[s].who {
    }
    assert Agents(w'.tracks) == Agents(w.tracks);
  }

  lemma InitTold(w: World, parse: Parser)
    requires Init(w)
    ensures AllTold(w, [], parse)
  {
  }

  lemma ActionTold(w: World, a: Action, forks: seq<Fork>, parse: Parser)
    requires Inv(w, parse) && AllTold(w, forks, parse) && Enabled(w, a)
    ensures AllTold(Apply(w, a, parse), if a.Batch? then forks + seq(|a.lines|, _ => w.drain.value.fork) else forks,
                    parse)
  {
    if a.Batch? {
      BatchedTold(w, a.lines, forks, parse);
    } else {
      OtherTold(w, a, forks, parse);
    }
  }

  /** So it is in every state of every run. */
  lemma {:induction false} RunTold(run: seq<World>, actions: seq<Action>, parse: Parser, n: nat)
    requires IsRun(run, actions, parse) && n < |run|
    ensures AllTold(run[n], Forks(run, actions, n), parse)
  {
    if n == 0 {
      InitTold(run[0], parse);
    } else {
      RunTold(run, actions, parse, n - 1);
      RunKeeps(run, actions, parse, n - 1);
      ActionTold(run[n - 1], actions[n - 1], Forks(run, actions, n - 1), parse);
    }
  }

  /** A projected event of a fork that began at a known time is a copy exactly when its entry's own time is before that;
      with either time unknown, exactly when another session's own event with the content came before; outside a fork
      never.  Other projected events are new exactly for the first version of their entry. */
  lemma CopiesExactly(run: seq<World>, actions: seq<Action>, parse: Parser, n: nat, i: nat)
    requires IsRun(run, actions, parse) && n < |run| && i < |run[n].tables.events|
    requires Projects(run[n].tables.events[i])
    ensures var events, forks := run[n].tables.events, Forks(run, actions, n);
      var e, line := events[i], parse(events[i].line);
      && |forks| == |events| && IsEntry(line)
      && (e.disposition == ForkCopy <==> FromBefore(events[..i], e.session, line.value, forks[i]))
      && (e.disposition == Fresh <==>
            e.disposition != ForkCopy && !VersionBefore(events[..i], e.session, line.value.uid.value))
  {
    RunTold(run, actions, parse, n);
    var forks := Forks(run, actions, n);
    assert Told(run[n].tables.events, i, parse, forks[i]);
  }
}
