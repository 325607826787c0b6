/**
  Whole capture runs: transcripts grow or are replaced, and one lineage after another is drained, a drain looking
  at its cursor once and then reading batch after batch.  In every reachable state the ledger holds each
  generation's consumed lines in order, and the auditor has nothing to report.
 */
module CaptureRun {
  import opened Wrappers
  import opened CaptureCursor
  import opened CaptureLedger
  import opened CaptureValid
  import opened CaptureLinks
  import opened CaptureRecord
  import opened CaptureAudit

  /** One lineage: its stored cursor, its transcript, the files set aside beside it, and the lines
      consumed in each generation so far. */
  datatype Track = Track(who: Lineage, cursor: Option<Cursor>, fork: ForkState, file: Option<File>,
                         aside: seq<File>, past: seq<seq<Bytes>>)
  /** The drain under way: what it reads, and how far it is. */
  datatype Drain = Drain(session: string, fork: Fork, aside: bool, cursor: Cursor)

  datatype World = World(tables: Tables, tracks: map<string, Track>, drain: Option<Drain>)

  datatype Action =
    | Disturb(session: string, file: Option<File>, aside: seq<File>)
    | Register(session: string)
    | Begin(session: string, fork: Fork)
    | Batch(session: string, lines: seq<(nat, Bytes)>)
    | Turn(session: string)
    | End(session: string)

  function Consumed(track: Track): seq<Bytes> {
    if track.past == [] then [] else track.past[|track.past| - 1]
  }

  /** Files are told apart by device and inode, and one that still passes the cursor's check really holds
      the consumed lines: it changed by appending only, or was replaced in a way the check detects. */
  ghost predicate Tame(track: Track) {
    && (forall f :: InTrack(track, f) && track.cursor.Some? && CursorState(Some(f), track.cursor) == Ok ==>
          Matches(f.data, track.cursor.value, Consumed(track)))
    && (forall f, g :: InTrack(track, f) && InTrack(track, g) && f.dev == g.dev && f.ino == g.ino ==> f == g)
  }

  predicate InTrack(track: Track, f: File) {
    track.file == Some(f) || f in track.aside
  }

  /** The old file of a replaced transcript, if it was set aside. */
  function SetAside(aside: seq<File>, c: Cursor): (f: Option<File>)
    ensures f.Some? ==> f.value in aside && f.value.dev == c.dev && f.value.ino == c.ino
  {
    if aside == [] then None
    else if aside[0].dev == c.dev && aside[0].ino == c.ino then Some(aside[0])
    else SetAside(aside[1..], c)
  }

  /** What a drain of this track begins with: the transcript while the check passes, else the rest of its
      set-aside copy, else the transcript anew. */
  function Reading(track: Track): Option<(bool, Cursor)> {
    if track.file.None? || track.cursor.None? then None
    else
      var f, c := track.file.value, track.cursor.value;
      var state := CursorState(Some(f), Some(c));
      if state == Ok then Some((false, c))
      else
        var copy := SetAside(track.aside, c);
        if state == Replaced && copy.Some? && CursorState(copy, Some(c)) == Ok then Some((true, c))
        else Some((false, NewGeneration(f, Some(c))))
  }

  /** The file at the path a drain reads, now. */
  function ReadNow(track: Track, aside: bool, c: Cursor): Option<File> {
    if aside then SetAside(track.aside, c) else track.file
  }

  /** While a drain reads a file, that file changes by appending only: the drain does not look again. */
  ghost predicate Steady(before: Track, after: Track, d: Drain) {
    var f, g := ReadNow(before, d.aside, d.cursor), ReadNow(after, d.aside, d.cursor);
    && f.Some? && g.Some? && f.value.dev == g.value.dev && f.value.ino == g.value.ino
    && |f.value.data| <= |g.value.data| && g.value.data[..|f.value.data|] == f.value.data
  }

  predicate Draining(w: World, s: string) {
    w.drain.Some? && w.drain.value.session == s
  }

  ghost predicate Enabled(w: World, a: Action) {
    && a.session in w.tracks
    && var track := w.tracks[a.session];
       match a
       case Disturb(s, file, aside) =>
         && Tame(track.(file := file, aside := aside))
         && (Draining(w, s) ==> Steady(track, track.(file := file, aside := aside), w.drain.value))
       case Register(_) => w.drain.None? && CursorState(track.file, track.cursor) == New
       case Begin(_, _) => w.drain.None? && Reading(track).Some?
       case Batch(s, lines) => Draining(w, s) && CanRead(track, w.drain.value, lines)
       case Turn(s) => Draining(w, s) && w.drain.value.aside && track.file.Some?
       case End(s) => Draining(w, s)
  }

  ghost predicate CanRead(track: Track, d: Drain, lines: seq<(nat, Bytes)>) {
    var f := ReadNow(track, d.aside, d.cursor);
    lines != [] && f.Some? && Follow(f.value.data, d.cursor.offset, lines)
  }

  /** One batch of the drain under way. */
  function Batched(w: World, d: Drain, lines: seq<(nat, Bytes)>, parse: Parser): World
    requires d.session in w.tracks && lines != []
  {
    var track, c := w.tracks[d.session], d.cursor;
    var after :=
      Steps(Point(w.tables, track.fork), Where(track.who, d.fork, c.generation, c.lineIndex), Raws(lines), parse);
    World(after.tables, w.tracks[d.session := Ingested(track, c, lines).(fork := after.fork)],
          Some(d.(cursor := Advance(c, lines))))
  }

  function Apply(w: World, a: Action, parse: Parser): World
    requires a.session in w.tracks
    requires a.Register? || a.Turn? ==> w.tracks[a.session].file.Some?
    requires a.Begin? ==> Reading(w.tracks[a.session]).Some?
    requires a.Batch? ==> a.lines != []
    requires a.Batch? || a.Turn? ==> Draining(w, a.session)
  {
    var track := w.tracks[a.session];
    match a
    case Disturb(s, file, aside) => w.(tracks := w.tracks[s := track.(file := file, aside := aside)])
    case Register(s) =>
      w.(tracks := w.tracks[s := track.(cursor := Some(NewGeneration(track.file.value, None)), past := [[]])])
    case Begin(s, fork) => w.(drain := Some(Drain(s, fork, Reading(track).value.0, Reading(track).value.1)))
    case Batch(_, lines) => Batched(w, w.drain.value, lines, parse)
    case Turn(_) =>
      var d := w.drain.value;
      w.(drain := Some(d.(aside := false, cursor := NewGeneration(track.file.value, Some(d.cursor)))))
    case End(_) => w.(drain := None)
  }

  /** The track once a batch read at `c` is ingested. */
  function Ingested(track: Track, c: Cursor, lines: seq<(nat, Bytes)>): Track
    requires lines != []
  {
    track.(cursor := Some(Advance(c, lines)),
           past := if c.generation < |track.past|
             then track.past[c.generation := track.past[c.generation] + Raws(lines)]
                   else track.past + [Raws(lines)])
  }

  // ---- what every state keeps --------------------------------------------

  ghost predicate Sound(t: Tables, parse: Parser) {
    Valid(t) && Recorded(t.events, parse) && LinksSound(t) && LinksComplete(t)
  }

  function PastOf(track: Track, g: nat): seq<Bytes> {
    if g < |track.past| then track.past[g] else []
  }

  ghost predicate TrackKept(events: seq<Event>, s: string, track: Track) {
    && track.who.session == s && Tame(track) && CursorFits(track)
    && (forall g: nat :: Logs(LogOf(events, s, g), PastOf(track, g)))
  }

  ghost predicate CursorFits(track: Track) {
    if track.cursor.None? then track.past == []
    else
      var c := track.cursor.value;
      |track.past| == c.generation + 1 && c.lineIndex == |Consumed(track)| && (c.offset == 0 <==> c.lineIndex == 0)
  }

  ghost predicate Inv(w: World, parse: Parser) {
    && Sound(w.tables, parse)
    && (forall s :: s in w.tracks ==> TrackKept(w.tables.events, s, w.tracks[s]))
    && (w.drain.Some? ==>
      w.drain.value.session in w.tracks && DrainFits(w.tracks[w.drain.value.session], w.drain.value))
  }

  /** The file the drain reads holds what its cursor has consumed. */
  ghost predicate DrainFits(track: Track, d: Drain) {
    var f := ReadNow(track, d.aside, d.cursor);
    f.Some? && ReadsWell(track, f.value, d.cursor) && (d.aside ==> track.cursor == Some(d.cursor))
  }

  ghost predicate Init(w: World) {
    && w.tables == Tables([], [], map[], [], {}) && w.drain.None?
    && (forall s :: s in w.tracks ==> Fresh(s, w.tracks[s]))
  }

  ghost predicate Fresh(s: string, track: Track) {
    track.who.session == s && track.cursor == None && track.past == [] && track.fork == ForkState(None, false)
    && Tame(track)
  }

  // ---- the ledger under a batch ------------------------------------------

  lemma StepSound(p: Point, at: Where, raw: Bytes, parse: Parser)
    requires Sound(p.tables, parse)
    ensures Sound(Step(p, at, raw, parse(raw)).tables, parse)
  {
    StepValid(p, at, raw, parse(raw));
    StepRecords(p, at, raw, parse);
    StepLinks(p, at, raw, parse(raw));
  }

  lemma StepsSound(p: Point, at: Where, lines: seq<Bytes>, parse: Parser)
    requires Sound(p.tables, parse)
    ensures Sound(Steps(p, at, lines, parse).tables, parse)
  {
    var kept := (q: Point, k: nat) => Sound(q.tables, parse);
    forall q: Point, k: nat | k < |lines| && kept(q, k)
      ensures kept(Step(q, Where(at.who, at.fork, at.generation, at.position + k), lines[k], parse(lines[k])), k + 1)
    {
      StepSound(q, Where(at.who, at.fork, at.generation, at.position + k), lines[k], parse);
    }
    StepsKeep(p, at, lines, parse, kept);
  }

  function More(past: seq<Bytes>, lines: seq<Bytes>, mine: bool): seq<Bytes> {
    if mine then past + lines else past
  }

  ghost predicate Logged(p: Point, s: string, g: nat, past: seq<Bytes>, lines: seq<Bytes>, mine: bool, k: nat) {
    k <= |lines| && Logs(LogOf(p.tables.events, s, g), More(past, lines[..k], mine))
  }

  /** A step appends one event: its line, at its place. */
  lemma StepEvent(q: Point, at: Where, raw: Bytes, line: Option<Entry>) returns (e: Event)
    ensures Step(q, at, raw, line).tables.events == q.tables.events + [e]
    ensures e.session == at.who.session && e.generation == at.generation && e.position == at.position && e.line == raw
  {
    e := NewEvent(q.tables, at, raw, line, OutcomeOf(q.tables, at, line));
  }

  lemma LogExtends(events: seq<Event>, e: Event, s: string, g: nat, lines: seq<Bytes>)
    requires Logs(LogOf(events, s, g), lines) && (e.session == s && e.generation == g ==> e.position == |lines|)
    ensures Logs(LogOf(events + [e], s, g), More(lines, [e.line], e.session == s && e.generation == g))
  {
    LogGrows(events, e, s, g);
  }

  lemma LoggedStep(q: Point, at: Where, raw: Bytes, line: Option<Entry>, s: string, g: nat, past: seq<Bytes>,
                   lines: seq<Bytes>, mine: bool, k: nat)
    requires Logged(q, s, g, past, lines, mine, k) && k < |lines| && raw == lines[k]
    requires mine <==> s == at.who.session && g == at.generation
    requires mine ==> at.position == |past| + k
    ensures Logged(Step(q, at, raw, line), s, g, past, lines, mine, k + 1)
  {
    var e := StepEvent(q, at, raw, line);
    assert past + lines[..k] + [raw] == past + lines[..k + 1];
    LogExtends(q.tables.events, e, s, g, More(past, lines[..k], mine));
  }

  /** A batch adds its lines to its own generation's log and to no other. */
  lemma StepsLog(p: Point, at: Where, lines: seq<Bytes>, parse: Parser, past: seq<Bytes>, s: string, g: nat)
    requires Logged(p, s, g, past, lines, s == at.who.session && g == at.generation, 0)
    requires s == at.who.session && g == at.generation ==> at.position == |past|
    ensures Logged(Steps(p, at, lines, parse), s, g, past, lines, s == at.who.session && g == at.generation, |lines|)
  {
    var mine := s == at.who.session && g == at.generation;
    var kept := (q: Point, k: nat) => Logged(q, s, g, past, lines, mine, k);
    forall q: Point, k: nat | k < |lines| && kept(q, k)
      ensures kept(Step(q, Where(at.who, at.fork, at.generation, at.position + k), lines[k], parse(lines[k])), k + 1)
    {
      LoggedStep(q, Where(at.who, at.fork, at.generation, at.position + k), lines[k], parse(lines[k]), s, g, past,
        lines, mine, k);
    }
    StepsKeep(p, at, lines, parse, kept);
  }

  // ---- the track under a batch -------------------------------------------

  /** What a batch is read from: a file of this track that holds what the batch's cursor has consumed. */
  ghost predicate ReadsWell(track: Track, f: File, c: Cursor) {
    && InTrack(track, f) && f.dev == c.dev && f.ino == c.ino
    && Matches(f.data, c, PastOf(track, c.generation))
    && (c.generation == |track.past| || (c.generation + 1 == |track.past| && track.cursor == Some(c)))
  }

  lemma ReadingFits(track: Track, d: Drain)
    requires Tame(track) && CursorFits(track) && Reading(track) == Some((d.aside, d.cursor))
    ensures DrainFits(track, d)
  {
    var f, c := track.file.value, track.cursor.value;
    if CursorState(Some(f), Some(c)) == Ok {
      assert InTrack(track, f);
    } else {
      var copy := SetAside(track.aside, c);
      if copy.Some? {
        assert InTrack(track, copy.value);
      }
      NewGenerationMatches(f, Some(c));
    }
  }

  /** The set-aside copy is read by device and inode, which no batch changes. */
  lemma {:induction false} SameAside(aside: seq<File>, c: Cursor, d: Cursor)
    requires c.dev == d.dev && c.ino == d.ino
    ensures SetAside(aside, c) == SetAside(aside, d)
  {
    if aside != [] {
      SameAside(aside[1..], c, d);
    }
  }

  /** Appending to the file a drain reads leaves the drain where it was. */
  lemma SteadyFits(before: Track, after: Track, d: Drain)
    requires DrainFits(before, d) && Steady(before, after, d)
      && after == before.(file := after.file, aside := after.aside)
    ensures DrainFits(after, d)
  {
    var f, g := ReadNow(before, d.aside, d.cursor).value, ReadNow(after, d.aside, d.cursor).value;
    var more := g.data[|f.data|..];
    assert g.data == f.data + more;
    MatchesGrown(f.data, more, d.cursor, PastOf(before, d.cursor.generation));
  }

  lemma PastAfter(track: Track, c: Cursor, lines: seq<(nat, Bytes)>, g: nat)
    requires lines != [] && c.generation <= |track.past|
    ensures PastOf(Ingested(track, c, lines), g) == More(PastOf(track, g), Raws(lines), g == c.generation)
  {
    assert [] + Raws(lines) == Raws(lines);
  }

  lemma BatchTrack(track: Track, f: File, c: Cursor, lines: seq<(nat, Bytes)>, st: ForkState)
    requires Tame(track) && ReadsWell(track, f, c) && lines != [] && Follow(f.data, c.offset, lines)
    ensures Tame(Ingested(track, c, lines).(fork := st)) && CursorFits(Ingested(track, c, lines).(fork := st))
    ensures ReadsWell(Ingested(track, c, lines).(fork := st), f, Advance(c, lines))
  {
    var after, past := Ingested(track, c, lines).(fork := st), PastOf(track, c.generation);
    AdvanceMatches(f.data, c, past, lines);
    PastAfter(track, c, lines, c.generation);
    assert Consumed(after) == past + Raws(lines) && InTrack(after, f);
    forall h | InTrack(after, h) && CursorState(Some(h), after.cursor) == Ok
      ensures Matches(h.data, after.cursor.value, Consumed(after))
    {
      assert InTrack(track, h) && h == f;
    }
    ChainBounds(f.data, 0, past + Raws(lines), after.cursor.value.offset);
  }

  lemma BatchLog(p: Point, at: Where, lines: seq<(nat, Bytes)>, parse: Parser, track: Track, s: string, g: nat,
                 c: Cursor)
    requires Logs(LogOf(p.tables.events, s, g), PastOf(track, g)) && lines != [] && c.generation <= |track.past|
    requires at.generation == c.generation && at.position == |PastOf(track, c.generation)|
    ensures Logs(LogOf(Steps(p, at, Raws(lines), parse).tables.events, s, g),
                 if s == at.who.session then PastOf(Ingested(track, c, lines), g) else PastOf(track, g))
  {
    var past, raws := PastOf(track, g), Raws(lines);
    assert past + raws[..0] == past && raws[..|raws|] == raws;
    StepsLog(p, at, raws, parse, past, s, g);
    PastAfter(track, c, lines, g);
  }

  lemma OwnTrack(p: Point, at: Where, lines: seq<(nat, Bytes)>, parse: Parser, track: Track, f: File, c: Cursor,
                 st: ForkState)
    requires TrackKept(p.tables.events, at.who.session, track) && ReadsWell(track, f, c) && lines != []
      && Follow(f.data, c.offset, lines)
    requires at.who == track.who && at.generation == c.generation && at.position == c.lineIndex
    ensures TrackKept(Steps(p, at, Raws(lines), parse).tables.events, at.who.session,
      Ingested(track, c, lines).(fork := st))
  {
    BatchTrack(track, f, c, lines, st);
    var after := Ingested(track, c, lines).(fork := st);
    forall g: nat
      ensures Logs(LogOf(Steps(p, at, Raws(lines), parse).tables.events, at.who.session, g), PastOf(after, g))
    {
      assert Logs(LogOf(p.tables.events, at.who.session, g), PastOf(track, g));
      BatchLog(p, at, lines, parse, track, at.who.session, g, c);
      assert PastOf(after, g) == PastOf(Ingested(track, c, lines), g);
    }
  }

  lemma OtherTrack(p: Point, at: Where, lines: seq<Bytes>, parse: Parser, track: Track, s: string)
    requires TrackKept(p.tables.events, s, track) && s != at.who.session
    ensures TrackKept(Steps(p, at, lines, parse).tables.events, s, track)
  {
    forall g: nat ensures Logs(LogOf(Steps(p, at, lines, parse).tables.events, s, g), PastOf(track, g)) {
      assert Logs(LogOf(p.tables.events, s, g), PastOf(track, g));
      OtherLog(p, at, lines, parse, PastOf(track, g), s, g);
    }
  }

  lemma BatchFits(track: Track, d: Drain, lines: seq<(nat, Bytes)>, st: ForkState)
    requires Tame(track) && DrainFits(track, d) && CanRead(track, d, lines)
    ensures DrainFits(Ingested(track, d.cursor, lines).(fork := st), d.(cursor := Advance(d.cursor, lines)))
  {
    BatchTrack(track, ReadNow(track, d.aside, d.cursor).value, d.cursor, lines, st);
    SameAside(track.aside, d.cursor, Advance(d.cursor, lines));
  }

  lemma BatchKeeps(w: World, d: Drain, lines: seq<(nat, Bytes)>, parse: Parser)
    requires Inv(w, parse) && w.drain == Some(d) && d.session in w.tracks && CanRead(w.tracks[d.session], d, lines)
    ensures Inv(Batched(w, d, lines, parse), parse)
  {
    var w', track, c := Batched(w, d, lines, parse), w.tracks[d.session], d.cursor;
    assert TrackKept(w.tables.events, d.session, track);
    var p, at := Point(w.tables, track.fork), Where(track.who, d.fork, c.generation, c.lineIndex);
    StepsSound(p, at, Raws(lines), parse);
    forall s | s in w'.tracks ensures TrackKept(w'.tables.events, s, w'.tracks[s]) {
      if s == d.session {
        OwnTrack(p, at, lines, parse, track, ReadNow(track, d.aside, c).value, c, w'.tracks[s].fork);
      } else {
        OtherTrack(p, at, Raws(lines), parse, w.tracks[s], s);
      }
    }
    BatchFits(track, d, lines, w'.tracks[d.session].fork);
  }

  lemma OtherLog(p: Point, at: Where, lines: seq<Bytes>, parse: Parser, past: seq<Bytes>, s: string, g: nat)
    requires Logs(LogOf(p.tables.events, s, g), past) && s != at.who.session
    ensures Logs(LogOf(Steps(p, at, lines, parse).tables.events, s, g), past)
  {
    StepsLog(p, at, lines, parse, past, s, g);
  }

  lemma Registered(track: Track, c: Cursor)
    requires Tame(track) && track.file.Some? && c == NewGeneration(track.file.value, None)
    ensures Tame(track.(cursor := Some(c), past := [[]])) && CursorFits(track.(cursor := Some(c), past := [[]]))
  {
    var after := track.(cursor := Some(c), past := [[]]);
    assert forall f :: InTrack(after, f) <==> InTrack(track, f);
    assert forall f: File :: Chain(f.data, 0, [], 0);
  }

  lemma TrackMoved(events: seq<Event>, s: string, before: Track, after: Track)
    requires TrackKept(events, s, before) && Tame(after) && CursorFits(after) && after.who == before.who
    requires forall g: nat :: PastOf(after, g) == PastOf(before, g)
    ensures TrackKept(events, s, after)
  {
    forall g: nat ensures Logs(LogOf(events, s, g), PastOf(after, g)) {
      assert PastOf(after, g) == PastOf(before, g);
    }
  }

  lemma DisturbKeeps(w: World, a: Action, parse: Parser)
    requires Inv(w, parse) && Enabled(w, a) && a.Disturb?
    ensures Inv(Apply(w, a, parse), parse)
  {
    var w', s := Apply(w, a, parse), a.session;
    TrackMoved(w.tables.events, s, w.tracks[s], w'.tracks[s]);
    if Draining(w, s) {
      SteadyFits(w.tracks[s], w'.tracks[s], w.drain.value);
    }
  }

  lemma RegisterKeeps(w: World, a: Action, parse: Parser)
    requires Inv(w, parse) && Enabled(w, a) && a.Register?
    ensures Inv(Apply(w, a, parse), parse)
  {
    var w', s := Apply(w, a, parse), a.session;
    Registered(w.tracks[s], NewGeneration(w.tracks[s].file.value, None));
    TrackMoved(w.tables.events, s, w.tracks[s], w'.tracks[s]);
  }

  /** Every action keeps the ledger, the tracks and the drain under way. */
  lemma ActionKeeps(w: World, a: Action, parse: Parser)
    requires Inv(w, parse) && Enabled(w, a)
    ensures Inv(Apply(w, a, parse), parse)
  {
    var track := w.tracks[a.session];
    assert TrackKept(w.tables.events, a.session, track);
    match a
    case Disturb(_, _, _) => DisturbKeeps(w, a, parse);
    case Register(_) => RegisterKeeps(w, a, parse);
    case Begin(s, fork) => ReadingFits(track, Drain(s, fork, Reading(track).value.0, Reading(track).value.1));
    case Batch(_, lines) => BatchKeeps(w, w.drain.value, lines, parse);
    case Turn(_) => NewGenerationMatches(track.file.value, Some(w.drain.value.cursor));
    case End(_) =>
  }

  /** Appending to a transcript that passes the cursor's check is always a tame disturbance. */
  lemma AppendIsTame(track: Track, more: Bytes)
    requires Tame(track) && track.file.Some? && track.cursor.Some? && CursorState(track.file, track.cursor) == Ok
    requires forall f :: f in track.aside ==> (f.dev, f.ino) != (track.file.value.dev, track.file.value.ino)
    ensures Tame(track.(file := Some(track.file.value.(data := track.file.value.data + more))))
    ensures CursorState(Some(track.file.value.(data := track.file.value.data + more)), track.cursor) == Ok
  {
    var f, c := track.file.value, track.cursor.value;
    assert InTrack(track, f);
    MatchesGrown(f.data, more, c, Consumed(track));
    GrowthIsOk(f, more, c, Consumed(track));
    var grown := track.(file := Some(f.(data := f.data + more)));
    forall g, h | InTrack(grown, g) && InTrack(grown, h) && g.dev == h.dev && g.ino == h.ino ensures g == h {
      if g in track.aside && h in track.aside {
        assert InTrack(track, g) && InTrack(track, h);
      }
    }
  }

  // ---- runs --------------------------------------------------------------

  ghost predicate IsRun(run: seq<World>, actions: seq<Action>, parse: Parser) {
    && |run| == |actions| + 1 && Init(run[0])
    && (forall k :: 0 <= k < |actions| ==>
      Enabled(run[k], actions[k]) && run[k + 1] == Apply(run[k], actions[k], parse))
  }

  lemma {:induction false} RunKeeps(run: seq<World>, actions: seq<Action>, parse: Parser, n: nat)
    requires IsRun(run, actions, parse) && n < |run|
    ensures Inv(run[n], parse)
  {
    if n > 0 {
      RunKeeps(run, actions, parse, n - 1);
      ActionKeeps(run[n - 1], actions[n - 1], parse);
    }
  }

  lemma {:induction false} PositionsDense(log: seq<Event>, lines: seq<Bytes>)
    requires Logs(log, lines)
    ensures forall k: nat :: k in Positions(log) <==> k < |log|
    ensures forall k: nat :: k < |log| ==> Positions(log)[k] == log[k]
  {
    if log != [] {
      PositionsDense(log[..|log| - 1], lines[..|lines| - 1]);
    }
  }

  lemma {:induction false} ChainCut(data: Bytes, lines: seq<Bytes>, end: nat, cut: nat)
    requires Chain(data, 0, lines, end) && end <= cut <= |data|
    ensures Chain(data[..cut], 0, lines, end)
  {
    if lines != [] {
      var last := lines[|lines| - 1];
      ChainCut(data, lines[..|lines| - 1], end - |last|, cut);
      assert data[..cut][end - |last|..end] == data[end - |last|..end];
    }
  }

  /** Up to the cursor, the transcript's lines are exactly those consumed. */
  lemma ConsumedBelowCursor(data: Bytes, c: Cursor, consumed: seq<Bytes>)
    requires Matches(data, c, consumed)
    ensures c.offset <= |data| && LinesFrom(data[..c.offset], 0) == consumed
  {
    ChainBounds(data, 0, consumed, c.offset);
    ChainCut(data, consumed, c.offset, c.offset);
    ChainIsRead(data[..c.offset], 0, consumed, c.offset);
    assert consumed + [] == consumed;
  }

  lemma KeptFits(events: seq<Event>, s: string, track: Track)
    requires TrackKept(events, s, track) && track.cursor.Some?
    ensures CurrentFits(events, s, track.cursor.value, track.file)
  {
    var c, past := track.cursor.value, Consumed(track);
    if CursorState(track.file, track.cursor) == Ok {
      assert InTrack(track, track.file.value);
      ConsumedBelowCursor(track.file.value.data, c, past);
      assert Logs(LogOf(events, s, c.generation), PastOf(track, c.generation));
      PositionsDense(LogOf(events, s, c.generation), past);
    }
  }

  /** The auditor, in any state of any run and for any lineage with a cursor: nothing to report. */
  method AuditAnyRun(ghost run: seq<World>, ghost actions: seq<Action>, w: World, s: string, parse: Parser)
    returns (report: Report)
    requires IsRun(run, actions, parse) && w in run && s in w.tracks && w.tracks[s].cursor.Some? && Faithful(parse)
    ensures report == Report(0, 0, 0, 0, 0, 0, 0, 0, 0)
  {
    ghost var n :| 0 <= n < |run| && run[n] == w;
    RunKeeps(run, actions, parse, n);
    var track := w.tracks[s];
    assert TrackKept(w.tables.events, s, track);
    KeptFits(w.tables.events, s, track);
    report := Audit(w.tables, s, track.cursor.value, track.file, AsideData(track.aside), parse);
  }

  function AsideData(aside: seq<File>): seq<Bytes> {
    seq(|aside|, k requires 0 <= k < |aside| => aside[k].data)
  }

  /** Each (generation, position) is written once: whenever a drain is under way, the events of its generation hold
      positions 0, 1, 2, ... in order and the next batch starts right after them. */
  lemma PositionsFresh(run: seq<World>, actions: seq<Action>, parse: Parser, n: nat)
    requires IsRun(run, actions, parse) && n < |run| && run[n].drain.Some?
    ensures var d := run[n].drain.value;
      var log := LogOf(run[n].tables.events, d.session, d.cursor.generation);
      |log| == d.cursor.lineIndex && (forall k :: 0 <= k < |log| ==> log[k].position == k)
  {
    RunKeeps(run, actions, parse, n);
    var w, d := run[n], run[n].drain.value;
    var track := w.tracks[d.session];
    assert TrackKept(w.tables.events, d.session, track);
    assert Logs(LogOf(w.tables.events, d.session, d.cursor.generation), PastOf(track, d.cursor.generation));
  }

  /** A drained transcript: the ledger holds every complete line of it, once each and in order. */
  lemma DrainedWhole(run: seq<World>, actions: seq<Action>, parse: Parser, n: nat, s: string)
    requires IsRun(run, actions, parse) && n < |run| && s in run[n].tracks
    requires CursorState(run[n].tracks[s].file, run[n].tracks[s].cursor) == Ok
    requires var track := run[n].tracks[s];
      track.cursor.value.offset <= |track.file.value.data|
        && LinesFrom(track.file.value.data, track.cursor.value.offset) == []
    ensures var track := run[n].tracks[s];
      Logs(LogOf(run[n].tables.events, s, track.cursor.value.generation), LinesFrom(track.file.value.data, 0))
  {
    RunKeeps(run, actions, parse, n);
    var track := run[n].tracks[s];
    assert TrackKept(run[n].tables.events, s, track) && InTrack(track, track.file.value);
    ConsumedExactly(track.file.value.data, track.cursor.value, Consumed(track));
    assert Logs(LogOf(run[n].tables.events, s, track.cursor.value.generation),
      PastOf(track, track.cursor.value.generation));
  }

  /** In every state of every run, the links between rows are exact. */
  lemma RunLinks(run: seq<World>, actions: seq<Action>, parse: Parser, n: nat)
    requires IsRun(run, actions, parse) && n < |run|
    ensures Valid(run[n].tables) && LinksSound(run[n].tables) && LinksComplete(run[n].tables)
  {
    RunKeeps(run, actions, parse, n);
  }
}
