/** What the ledger records of every line: the line itself, its identity, and what became of it. */
module CaptureRecord {
  import opened Wrappers
  import opened CaptureCursor
  import opened CaptureLedger
  import opened CaptureValid

  /** Equal content digests mean equal content, so the same class and uid. */
  ghost predicate Faithful(parse: Parser) {
    forall a, b :: parse(a).Some? && parse(b).Some? && parse(a).value.digest == parse(b).value.digest ==>
      parse(a).value.cls == parse(b).value.cls && parse(a).value.uid == parse(b).value.uid
  }

  predicate IsIdentity(e: Event, session: string, uid: string, digest: string) {
    IsVersion(e, session, uid) && e.digest == Some(digest)
  }

  ghost predicate IdentityHeld(events: seq<Event>, session: string, uid: string, digest: string) {
    exists i :: 0 <= i < |events| && IsIdentity(events[i], session, uid, digest)
  }

  /** The bytes of an event's line can be had: in the event, or in the one that keeps them for its session. */
  predicate RawKept(events: seq<Event>, i: nat)
    requires i < |events|
  {
    var e := events[i];
    if e.raw.Some? then e.raw.value == e.line
    else e.rawFrom.Some? && e.rawFrom.value < |events| && HoldsRaw(events[e.rawFrom.value], e.session, e.line)
  }

  /** An event says of its line what parsing the line says. */
  ghost predicate Parsed(e: Event, parse: Parser) {
    var line := parse(e.line);
    && e.uid == (if line.Some? then line.value.uid else None)
    && e.digest == (if line.Some? then Some(line.value.digest) else None)
    && e.cls == (if line.Some? then line.value.cls else RawOnly)
    && (Projects(e) ==> IsEntry(line) && line.value.rows == Some(|Ids(e)|) && e.raw == Some(e.line))
  }

  /** A projected entry's line is projected somewhere in its lineage, or its projection failed and it says so. */
  ghost predicate Accounted(events: seq<Event>, e: Event, parse: Parser) {
    var line := parse(e.line);
    IsEntry(line) ==>
      || IdentityHeld(events, e.session, line.value.uid.value, line.value.digest)
      || (e.disposition == Raw && e.note == ProjectionError)
  }

  ghost predicate Recorded(events: seq<Event>, parse: Parser) {
    && (forall i :: 0 <= i < |events| ==> RawKept(events, i))
    && (forall i :: 0 <= i < |events| ==> Parsed(events[i], parse))
    && (forall i :: 0 <= i < |events| ==> Accounted(events, events[i], parse))
    && (forall i, j :: 0 <= i < j < |events| && Projects(events[i]) && Projects(events[j]) ==>
          (events[i].session, events[i].uid, events[i].digest) != (events[j].session, events[j].uid, events[j].digest))
  }

  // ---- one step ----------------------------------------------------------

  /** What the new event is, seen from the ledger it joins. */
  ghost predicate JoinsWell(events: seq<Event>, e: Event, parse: Parser) {
    && Parsed(e, parse) && RawKept(events + [e], |events|) && Accounted(events + [e], e, parse)
    && (Projects(e) ==> e.uid.Some? && e.digest.Some? && !IdentityHeld(events, e.session, e.uid.value, e.digest.value))
  }

  lemma RecordedKept(events: seq<Event>, e: Event, parse: Parser)
    requires Recorded(events, parse) && JoinsWell(events, e, parse)
    ensures Recorded(events + [e], parse)
  {
    var grown := events + [e];
    forall i | 0 <= i < |grown|
      ensures RawKept(grown, i) && Parsed(grown[i], parse) && Accounted(grown, grown[i], parse)
    {
      if i < |events| {
        assert RawKept(events, i) && Parsed(events[i], parse) && Accounted(events, events[i], parse);
        AccountedGrows(events, e, events[i], parse);
      }
    }
    forall i, j | 0 <= i < j < |grown| && Projects(grown[i]) && Projects(grown[j])
      ensures (grown[i].session, grown[i].uid, grown[i].digest) != (grown[j].session, grown[j].uid, grown[j].digest)
    {
      if j == |events| {
        assert !IsIdentity(events[i], e.session, e.uid.value, e.digest.value);
      }
    }
  }

  lemma AccountedGrows(events: seq<Event>, e: Event, prior: Event, parse: Parser)
    requires Accounted(events, prior, parse)
    ensures Accounted(events + [e], prior, parse)
  {
    var line := parse(prior.line);
    if IsEntry(line) && IdentityHeld(events, prior.session, line.value.uid.value, line.value.digest) {
      var i :| 0 <= i < |events| && IsIdentity(events[i], prior.session, line.value.uid.value, line.value.digest);
      assert IsIdentity((events + [e])[i], prior.session, line.value.uid.value, line.value.digest);
    }
  }

  /** The digests a lineage holds of an entry are those of its projected events. */
  lemma {:induction false} DigestsHeld(events: seq<Event>, session: string, uid: string, digest: string)
    requires forall i :: 0 <= i < |events| && Projects(events[i]) ==> events[i].digest.Some?
    ensures digest in Digests(Versions(events, session, uid)) <==> IdentityHeld(events, session, uid, digest)
  {
    PlacesOf(events, session, uid);
    var held, places := Versions(events, session, uid), Places(events, session, uid);
    if digest in Digests(held) {
      var k :| 0 <= k < |Digests(held)| && Digests(held)[k] == digest;
      assert IsIdentity(events[places[k]], session, uid, digest);
    }
    if IdentityHeld(events, session, uid, digest) {
      var i :| 0 <= i < |events| && IsIdentity(events[i], session, uid, digest);
      var k :| 0 <= k < |places| && places[k] == i;
      assert Digests(held)[k] == digest;
    }
  }

  lemma StepJoins(t: Tables, at: Where, raw: Bytes, parse: Parser)
    requires Recorded(t.events, parse)
    ensures JoinsWell(t.events, NewEvent(t, at, raw, parse(raw), OutcomeOf(t, at, parse(raw))), parse)
  {
    var line := parse(raw);
    var o := OutcomeOf(t, at, line);
    DecideFacts(t, at, line);
    var e := NewEvent(t, at, raw, line, o);
    assert (t.events + [e])[|t.events|] == e;
    if IsEntry(line) {
      var uid, digest := line.value.uid.value, line.value.digest;
      assert forall i :: 0 <= i < |t.events| && Projects(t.events[i]) ==> Parsed(t.events[i], parse);
      DigestsHeld(t.events, at.who.session, uid, digest);
      if o.Again? {
        var i :| 0 <= i < |t.events| && IsIdentity(t.events[i], at.who.session, uid, digest);
        assert IsIdentity((t.events + [e])[i], at.who.session, uid, digest);
      } else if o.Project? {
        assert IsIdentity((t.events + [e])[|t.events|], at.who.session, uid, digest);
      }
    }
  }

  /** Every step records its line. */
  lemma StepRecords(p: Point, at: Where, raw: Bytes, parse: Parser)
    requires Recorded(p.tables.events, parse)
    ensures Recorded(Step(p, at, raw, parse(raw)).tables.events, parse)
  {
    StepJoins(p.tables, at, raw, parse);
    RecordedKept(p.tables.events, NewEvent(p.tables, at, raw, parse(raw), OutcomeOf(p.tables, at, parse(raw))), parse);
  }

  // ---- the log of a generation -------------------------------------------

  /** The events of one generation of a lineage, in ledger order. */
  function LogOf(events: seq<Event>, session: string, generation: nat): seq<Event> {
    if events == [] then []
    else
      var e := events[|events| - 1];
      LogOf(events[..|events| - 1], session, generation)
        + if e.session == session && e.generation == generation then [e] else []
  }

  /** The log holds these lines, each at its own position. */
  ghost predicate Logs(log: seq<Event>, lines: seq<Bytes>) {
    && |log| == |lines|
    && (forall k :: 0 <= k < |log| ==> log[k].position == k && log[k].line == lines[k])
  }

  lemma LogGrows(events: seq<Event>, e: Event, session: string, generation: nat)
    ensures LogOf(events + [e], session, generation)
         == LogOf(events, session, generation) + if e.session == session && e.generation == generation then [e] else []
  {
    assert (events + [e])[..|events|] == events;
  }

  lemma {:induction false} LogMembers(events: seq<Event>, session: string, generation: nat, k: nat) returns (i: nat)
    requires k < |LogOf(events, session, generation)|
    ensures i < |events| && events[i] == LogOf(events, session, generation)[k]
    ensures events[i].session == session && events[i].generation == generation
  {
    var n := |events| - 1;
    if k < |LogOf(events[..n], session, generation)| {
      i := LogMembers(events[..n], session, generation, k);
    } else {
      i := n;
    }
  }
}
