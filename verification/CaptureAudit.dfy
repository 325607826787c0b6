/**
  The separately written auditor: it re-reads the ledger and the transcripts and counts what is wrong.
  Each counter is zero exactly when a stated condition holds; on every ledger the writer leaves they all hold.
 */
module CaptureAudit {
  import opened Wrappers
  import opened CaptureCursor
  import opened CaptureLedger
  import opened CaptureValid
  import opened CaptureLinks
  import opened CaptureRecord

  datatype Pair = Pair(uid: Option<string>, digest: Option<string>)

  function PairOf(e: Event): Pair {
    Pair(e.uid, e.digest)
  }

  function EntryPair(line: Option<Entry>): Pair
    requires IsEntry(line)
  {
    Pair(line.value.uid, Some(line.value.digest))
  }

  // ---- the ledger's own rows ---------------------------------------------

  /** How many rows projecting the stored bytes gives; None when it raises. */
  function Projection(line: Option<Entry>): Option<nat> {
    if line.None? then None else if !IsEntry(line) then Some(0) else line.value.rows
  }

  predicate RawFound(events: seq<Event>, i: nat)
    requires i < |events|
  {
    var e := events[i];
    if e.raw.Some? then e.raw.value == e.line
    else
      && e.rawFrom.Some? && e.rawFrom.value < |events|
      && var r := events[e.rawFrom.value]; r.raw.Some? && r.session == e.session && r.line == e.line
  }

  predicate CountFits(e: Event, parse: Parser) {
    Projects(e) ==> e.raw.Some? && Projection(parse(e.raw.value)) == Some(|Ids(e)|)
  }

  /** The row ids a lineage's projected events list, in order. */
  function Claims(events: seq<Event>, session: string): seq<nat> {
    if events == [] then []
    else
      var e := events[|events| - 1];
      Claims(events[..|events| - 1], session) + if e.session == session && Projects(e) then Ids(e) else []
  }

  ghost predicate Distinct(ids: seq<nat>) {
    forall a, b :: 0 <= a < b < |ids| ==> ids[a] != ids[b]
  }

  /** One event's ids against those already claimed. */
  method ClaimIds(ids: seq<nat>, claimed: set<nat>, ghost before: seq<nat>) returns (twice: nat, claimed': set<nat>)
    requires forall x :: x in claimed <==> x in before
    ensures forall x :: x in claimed' <==> x in before + ids
    ensures Distinct(before + ids) <==> twice == 0 && Distinct(before)
  {
    twice, claimed' := 0, claimed;
    var k := 0;
    assert before + ids[..0] == before;
    while k < |ids|
      invariant 0 <= k <= |ids|
      invariant forall x :: x in claimed' <==> x in before + ids[..k]
      invariant Distinct(before + ids[..k]) <==> twice == 0 && Distinct(before)
    {
      var all := before + ids[..k];
      assert before + ids[..k + 1] == all + [ids[k]];
      DistinctAdd(all, ids[k]);
      if ids[k] in claimed' {
        twice := twice + 1;
      }
      claimed' := claimed' + {ids[k]};
      k := k + 1;
    }
    assert ids[..k] == ids;
  }

  lemma DistinctAdd(ids: seq<nat>, id: nat)
    ensures Distinct(ids + [id]) <==> Distinct(ids) && id !in ids
  {
    var more := ids + [id];
    if Distinct(more) {
      forall a, b | 0 <= a < b < |ids| ensures ids[a] != ids[b] {
        assert more[a] != more[b];
      }
      forall a | 0 <= a < |ids| ensures ids[a] != id {
        assert more[a] != more[|ids|];
      }
    } else {
      var a, b :| 0 <= a < b < |more| && more[a] == more[b];
    }
  }

  lemma ClaimsGrow(events: seq<Event>, e: Event, session: string)
    ensures Claims(events + [e], session) == Claims(events, session)
      + if e.session == session && Projects(e) then Ids(e) else []
  {
    assert (events + [e])[..|events|] == events;
  }

  /** Row ids that a projected entry lists twice, or that another one also lists. */
  method ClaimedTwice(events: seq<Event>, session: string) returns (repeated: nat)
    ensures repeated == 0 <==> Distinct(Claims(events, session))
  {
    repeated := 0;
    var claimed: set<nat> := {};
    var i := 0;
    ghost var claims: seq<nat> := [];
    assert events[..0] == [];
    while i < |events|
      invariant 0 <= i <= |events| && claims == Claims(events[..i], session)
      invariant repeated == 0 <==> Distinct(claims)
      invariant forall x :: x in claimed <==> x in claims
    {
      var e := events[i];
      assert events[..i + 1] == events[..i] + [e];
      ClaimsGrow(events[..i], e, session);
      if e.session == session && Projects(e) {
        var twice;
        twice, claimed := ClaimIds(Ids(e), claimed, claims);
        repeated := repeated + twice;
        claims := claims + Ids(e);
      }
      i := i + 1;
    }
    assert events[..i] == events;
  }

  /** `corrupt` and `row_count`, over the lineage's lines in one snapshot. */
  method LedgerChecks(events: seq<Event>, session: string, parse: Parser) returns (corrupt: nat, rowCount: nat)
    ensures corrupt == 0 <==> forall i :: 0 <= i < |events| && events[i].session == session ==> RawFound(events, i)
    ensures rowCount == 0 <==>
      && (forall i :: 0 <= i < |events| && events[i].session == session ==> CountFits(events[i], parse))
      && Distinct(Claims(events, session))
  {
    corrupt, rowCount := 0, 0;
    var i := 0;
    while i < |events|
      invariant 0 <= i <= |events|
      invariant corrupt == 0 <==> forall j :: 0 <= j < i && events[j].session == session ==> RawFound(events, j)
      invariant rowCount == 0 <==>
        forall j :: 0 <= j < i && events[j].session == session ==> CountFits(events[j], parse)
    {
      var e := events[i];
      if e.session == session {
        if !RawFound(events, i) {
          corrupt := corrupt + 1;
        }
        if !CountFits(e, parse) {
          rowCount := rowCount + 1;
        }
      }
      i := i + 1;
    }
    var repeated := ClaimedTwice(events, session);
    rowCount := rowCount + repeated;
  }

  // ---- transcripts -------------------------------------------------------

  function Positions(log: seq<Event>): map<nat, Event> {
    if log == [] then map[] else Positions(log[..|log| - 1])[log[|log| - 1].position := log[|log| - 1]]
  }

  lemma PositionsNext(log: seq<Event>, e: Event)
    ensures Positions(log + [e]) == Positions(log)[e.position := e]
  {
    assert (log + [e])[..|log|] == log;
  }

  /** Reading one more complete line. */
  lemma ReadOn(data: Bytes, at: nat, seen: seq<Bytes>, lines: seq<Bytes>)
    requires at <= |data| && lines == seen + LinesFrom(data, at) && Terminated(ReadLine(data, at))
    ensures at < LineEnd(data, at) && lines == (seen + [ReadLine(data, at)]) + LinesFrom(data, LineEnd(data, at))
  {
    Reassociate(seen, ReadLine(data, at), LinesFrom(data, LineEnd(data, at)));
  }

  lemma ReadOut(data: Bytes, at: nat, seen: seq<Bytes>, lines: seq<Bytes>)
    requires at <= |data| && lines == seen + LinesFrom(data, at) && !Terminated(ReadLine(data, at))
    ensures lines == seen
  {
  }

  method GenerationRows(events: seq<Event>, session: string, generation: nat) returns (rows: map<nat, Event>)
    ensures rows == Positions(LogOf(events, session, generation))
  {
    rows := map[];
    ghost var log: seq<Event> := [];
    var i := 0;
    assert events[..0] == [];
    while i < |events|
      invariant 0 <= i <= |events|
      invariant log == LogOf(events[..i], session, generation) && rows == Positions(log)
    {
      var e := events[i];
      assert events[..i + 1] == events[..i] + [e];
      LogGrows(events[..i], e, session, generation);
      if e.session == session && e.generation == generation {
        PositionsNext(log, e);
        log := log + [e];
        rows := rows[e.position := e];
      }
      i := i + 1;
    }
    assert events[..i] == events;
  }

  function ExpectedOf(lines: seq<Bytes>, parse: Parser): set<Pair> {
    set raw | raw in lines && IsEntry(parse(raw)) :: EntryPair(parse(raw))
  }

  /** One readable transcript against its ledger rows, one complete line at a time. */
  method Compare(data: Bytes, rows: map<nat, Event>, parse: Parser)
    returns (lost: nat, mismatch: nat, length: nat, expected: set<Pair>)
    ensures length == |LinesFrom(data, 0)|
    ensures lost == 0 <==> forall k :: 0 <= k < length ==> k in rows
    ensures mismatch == 0 <==> forall k :: 0 <= k < length && k in rows ==> rows[k].line == LinesFrom(data, 0)[k]
    ensures expected == ExpectedOf(LinesFrom(data, 0), parse)
  {
    lost, mismatch, length, expected := 0, 0, 0, {};
    ghost var lines := LinesFrom(data, 0);
    ghost var seen: seq<Bytes> := [];
    var at := 0;
    while true
      invariant at <= |data| && |seen| == length && lines == seen + LinesFrom(data, at) && lines == LinesFrom(data, 0)
      invariant lost == 0 <==> forall k :: 0 <= k < length ==> k in rows
      invariant mismatch == 0 <==> forall k :: 0 <= k < length && k in rows ==> rows[k].line == seen[k]
      invariant expected == ExpectedOf(seen, parse)
      decreases |data| - at
    {
      var raw := ReadLine(data, at);
      if !Terminated(raw) {
        ReadOut(data, at, seen, lines);
        break;
      }
      ReadOn(data, at, seen, lines);
      if length !in rows {
        lost := lost + 1;
      } else if rows[length].line != raw {
        mismatch := mismatch + 1;
      }
      ExpectedMore(seen, raw, parse);
      if IsEntry(parse(raw)) {
        expected := expected + {EntryPair(parse(raw))};
      }
      seen := seen + [raw];
      length := length + 1;
      at := LineEnd(data, at);
    }
  }

  lemma ExpectedMore(lines: seq<Bytes>, raw: Bytes, parse: Parser)
    ensures ExpectedOf(lines + [raw], parse) == ExpectedOf(lines, parse)
      + if IsEntry(parse(raw)) then {EntryPair(parse(raw))} else {}
  {
    assert forall r :: r in lines + [raw] <==> r in lines || r == raw;
  }

  predicate NoPartLine(data: Bytes, i: nat)
    requires i <= |data|
    decreases |data| - i
  {
    i == |data| || (Terminated(ReadLine(data, i)) && NoPartLine(data, LineEnd(data, i)))
  }

  /** The copy is this generation's transcript, whole: every line in it is the row at its position, and no row is
      left over. */
  ghost predicate WholeCopy(data: Bytes, rows: map<nat, Event>) {
    && 0 in rows && |rows| == |LinesFrom(data, 0)| && NoPartLine(data, 0)
    && (forall k :: 0 <= k < |rows| ==> k in rows && rows[k].line == LinesFrom(data, 0)[k])
  }

  method MatchesGeneration(data: Bytes, rows: map<nat, Event>) returns (matches: bool)
    ensures matches <==> WholeCopy(data, rows)
  {
    if 0 !in rows {
      return false;
    }
    var count, at := 0, 0;
    ghost var lines := LinesFrom(data, 0);
    ghost var seen: seq<Bytes> := [];
    while at < |data|
      invariant at <= |data| && |seen| == count && lines == seen + LinesFrom(data, at) && lines == LinesFrom(data, 0)
      invariant NoPartLine(data, 0) == NoPartLine(data, at)
      invariant forall k :: 0 <= k < count ==> k in rows && rows[k].line == seen[k]
      decreases |data| - at
    {
      var raw := ReadLine(data, at);
      if !Terminated(raw) {
        return false;
      }
      ReadOn(data, at, seen, lines);
      assert lines[count] == raw;
      if count !in rows || rows[count].line != raw {
        return false;
      }
      seen := seen + [raw];
      count := count + 1;
      at := LineEnd(data, at);
    }
    ReadOut(data, at, seen, lines);
    return count == |rows|;
  }

  lemma WholeCopyExact(data: Bytes, rows: map<nat, Event>)
    requires WholeCopy(data, rows)
    ensures forall i :: i in rows ==> i < |LinesFrom(data, 0)|
  {
    var n := |rows|;
    forall i | i in rows ensures i < n {
      if n <= i {
        assert i !in Below(n) && Below(n) <= rows.Keys;
        SubsetSmaller(Below(n), rows.Keys);
      }
    }
  }

  function Below(n: nat): (s: set<nat>)
    ensures |s| == n && (forall i: nat :: i in s <==> i < n)
  {
    if n == 0 then {} else Below(n - 1) + {n - 1}
  }

  lemma SubsetSmaller<T>(a: set<T>, b: set<T>)
    requires a < b
    ensures |a| < |b|
  {
    assert b == a + (b - a);
  }

  ghost predicate LinesAgree(rows: map<nat, Event>, lines: seq<Bytes>) {
    forall k :: 0 <= k < |lines| ==> k in rows && rows[k].line == lines[k]
  }

  /** Some ledger event of the session holds a line with this identity. */
  ghost predicate Witnessed(events: seq<Event>, session: string, parse: Parser, pair: Pair) {
    exists i ::
      0 <= i < |events| && events[i].session == session && IsEntry(parse(events[i].line))
        && EntryPair(parse(events[i].line)) == pair
  }

  lemma {:induction false} PositionsMember(log: seq<Event>, k: nat) returns (i: nat)
    requires k in Positions(log)
    ensures i < |log| && log[i] == Positions(log)[k]
  {
    var n := |log| - 1;
    if k == log[n].position {
      i := n;
    } else {
      i := PositionsMember(log[..n], k);
    }
  }

  /** What a transcript that agrees with its rows expects is in the ledger. */
  lemma AgreedWitness(events: seq<Event>, session: string, generation: nat, lines: seq<Bytes>, parse: Parser)
    requires LinesAgree(Positions(LogOf(events, session, generation)), lines)
    ensures forall pair :: pair in ExpectedOf(lines, parse) ==> Witnessed(events, session, parse, pair)
  {
    var log := LogOf(events, session, generation);
    forall pair | pair in ExpectedOf(lines, parse) ensures Witnessed(events, session, parse, pair) {
      var raw :| raw in lines && IsEntry(parse(raw)) && EntryPair(parse(raw)) == pair;
      var k :| 0 <= k < |lines| && lines[k] == raw;
      var at := PositionsMember(log, k);
      var i := LogMembers(events, session, generation, at);
    }
  }

  datatype LineReport = LineReport(lost: nat, mismatch: nat, surplus: nat)

  function Surplus(rows: map<nat, Event>, length: nat): (n: nat)
    ensures n == 0 <==> forall i :: i in rows ==> i < length
  {
    var over := set i: nat | i in rows && length <= i;
    EmptyExactly(over);
    assert forall i :: i in rows && length <= i ==> i in over;
    |over|
  }

  lemma EmptyExactly<T>(s: set<T>)
    ensures |s| == 0 <==> forall x :: x !in s
  {
    if |s| != 0 {
      var x :| x in s;
    }
  }

  /** The set-aside copy of an older generation, if one of the siblings is it. */
  method OlderCopy(siblings: seq<Bytes>, rows: map<nat, Event>) returns (copy: Option<Bytes>)
    ensures copy.Some? ==> copy.value in siblings && WholeCopy(copy.value, rows)
  {
    for k := 0 to |siblings| {
      var matches := MatchesGeneration(siblings[k], rows);
      if matches {
        return Some(siblings[k]);
      }
    }
    return None;
  }

  /** An older generation either has no copy, or agrees with it line by line: it never adds a failure. */
  method OlderGeneration(events: seq<Event>, session: string, generation: nat, siblings: seq<Bytes>, parse: Parser)
    returns (report: LineReport, gone: bool, expected: set<Pair>)
    ensures report == LineReport(0, 0, 0)
    ensures forall pair :: pair in expected ==> Witnessed(events, session, parse, pair)
  {
    var rows := GenerationRows(events, session, generation);
    var copy := OlderCopy(siblings, rows);
    if copy.None? {
      return LineReport(0, 0, 0), true, {};
    }
    var lost, mismatch, length;
    lost, mismatch, length, expected := Compare(copy.value, rows, parse);
    WholeCopyExact(copy.value, rows);
    AgreedWitness(events, session, generation, LinesFrom(copy.value, 0), parse);
    report, gone := LineReport(lost, mismatch, Surplus(rows, length)), false;
  }

  /** The current generation, when the transcript is still the one the cursor was made for. */
  method CurrentGeneration(events: seq<Event>, session: string, cursor: Cursor, data: Bytes, parse: Parser)
    returns (report: LineReport, expected: set<Pair>)
    requires cursor.offset <= |data|
    ensures var rows, lines :=
      Positions(LogOf(events, session, cursor.generation)), LinesFrom(data[..cursor.offset], 0);
      && (report.lost == 0 && report.mismatch == 0 <==> LinesAgree(rows, lines))
      && (report.surplus == 0 <==> forall i :: i in rows ==> i < cursor.lineIndex)
      && expected == ExpectedOf(lines, parse)
  {
    var rows := GenerationRows(events, session, cursor.generation);
    var lost, mismatch, length;
    lost, mismatch, length, expected := Compare(data[..cursor.offset], rows, parse);
    report := LineReport(lost, mismatch, Surplus(rows, cursor.lineIndex));
  }

  /** Every readable generation.  Zero failures exactly when the current transcript, if it can be read,
      agrees with its rows up to the cursor and no row lies past it. */
  method Transcripts(events: seq<Event>, session: string, cursor: Cursor, file: Option<File>, siblings: seq<Bytes>,
                     parse: Parser)
    returns (report: LineReport, gone: nat, expected: set<Pair>)
    ensures report == LineReport(0, 0, 0) <==> CurrentFits(events, session, cursor, file)
    ensures report == LineReport(0, 0, 0) ==> forall pair :: pair in expected ==>
      Witnessed(events, session, parse, pair)
  {
    report, gone, expected := LineReport(0, 0, 0), 0, {};
    if CursorState(file, Some(cursor)) == Ok {
      report, expected := CurrentGeneration(events, session, cursor, file.value.data, parse);
      if report == LineReport(0, 0, 0) {
        AgreedWitness(events, session, cursor.generation, LinesFrom(file.value.data[..cursor.offset], 0), parse);
      }
    }
    ghost var current := report;
    for g := 0 to cursor.generation
      invariant report == current
      invariant report == LineReport(0, 0, 0) ==> forall pair :: pair in expected ==>
        Witnessed(events, session, parse, pair)
    {
      var older, missing, more := OlderGeneration(events, session, g, siblings, parse);
      report := LineReport(report.lost + older.lost, report.mismatch + older.mismatch, report.surplus + older.surplus);
      expected := expected + more;
      gone := gone + if missing then 1 else 0;
    }
  }

  ghost predicate CurrentFits(events: seq<Event>, session: string, cursor: Cursor, file: Option<File>) {
    CursorState(file, Some(cursor)) == Ok ==>
      var rows := Positions(LogOf(events, session, cursor.generation));
      LinesAgree(rows, LinesFrom(file.value.data[..cursor.offset], 0))
        && (forall i :: i in rows ==> i < cursor.lineIndex)
  }

  // ---- identities --------------------------------------------------------

  /** Every ledger line with this identity failed to project, and says so. */
  ghost predicate Excused(events: seq<Event>, session: string, pair: Pair) {
    && (exists i :: 0 <= i < |events| && events[i].session == session && PairOf(events[i]) == pair)
    && (forall i :: 0 <= i < |events| && events[i].session == session && PairOf(events[i]) == pair ==>
      FailedNoted(events[i]))
  }

  predicate FailedNoted(e: Event) {
    e.disposition == Raw && e.note == ProjectionError
  }

  ghost predicate Present(events: seq<Event>, session: string, pair: Pair) {
    exists i :: 0 <= i < |events| && events[i].session == session && Projects(events[i]) && PairOf(events[i]) == pair
  }

  /** No identity is projected twice among the first `n` events. */
  ghost predicate OncePresent(events: seq<Event>, session: string, n: nat)
    requires n <= |events|
  {
    forall i, j :: 0 <= i < j < n && Mine(events[i], session) && Mine(events[j], session) ==>
      PairOf(events[i]) != PairOf(events[j])
  }

  predicate Mine(e: Event, session: string) {
    e.session == session && Projects(e)
  }

  method CheckExcused(events: seq<Event>, session: string, pair: Pair) returns (excused: bool)
    ensures excused <==> Excused(events, session, pair)
  {
    var found, all := false, true;
    for i := 0 to |events|
      invariant found <==> exists j :: 0 <= j < i && events[j].session == session && PairOf(events[j]) == pair
      invariant all <==>
        forall j :: 0 <= j < i && events[j].session == session && PairOf(events[j]) == pair ==> FailedNoted(events[j])
    {
      if events[i].session == session && PairOf(events[i]) == pair {
        found := true;
        all := all && FailedNoted(events[i]);
      }
    }
    return found && all;
  }

  /** The identities of the projected events, and those that more than one of them has. */
  method PresentPairs(events: seq<Event>, session: string) returns (present: set<Pair>, twice: set<Pair>)
    ensures forall pair :: pair in present <==> Present(events, session, pair)
    ensures twice == {} <==> OncePresent(events, session, |events|)
  {
    present, twice := {}, {};
    var k := 0;
    while k < |events|
      invariant 0 <= k <= |events|
      invariant forall pair :: pair in present <==>
        exists i :: 0 <= i < k && events[i].session == session && Projects(events[i]) && PairOf(events[i]) == pair
      invariant twice == {} <==> OncePresent(events, session, k)
    {
      var e := events[k];
      if e.session == session && Projects(e) {
        if PairOf(e) in present {
          twice := twice + {PairOf(e)};
          assert PairOf(e) in twice;
        }
        present := present + {PairOf(e)};
      }
      k := k + 1;
    }
  }

  /** `lost`: identities the transcripts hold and the ledger neither projected nor excused. */
  method CountLost(events: seq<Event>, session: string, expected: set<Pair>, present: set<Pair>) returns (lost: nat)
    requires forall pair :: pair in present <==> Present(events, session, pair)
    ensures lost == 0 <==>
      forall pair :: pair in expected ==> Present(events, session, pair) || Excused(events, session, pair)
  {
    lost := 0;
    var rest := expected - present;
    while rest != {}
      invariant rest <= expected - present
      invariant lost == 0 <==>
        forall pair :: pair in expected - present && pair !in rest ==> Excused(events, session, pair)
      decreases rest
    {
      var pair :| pair in rest;
      var excused := CheckExcused(events, session, pair);
      if !excused {
        lost := lost + 1;
      }
      rest := rest - {pair};
    }
  }

  /** `missing_rows` and `stray_rows`: the projected events' ids against the session's message rows. */
  method CountRows(t: Tables, session: string) returns (missing: nat, stray: nat)
    ensures var ids := Claims(t.events, session);
      missing == 0 <==> forall k :: 0 <= k < |ids| ==> IsRow(t, session, ids[k])
    ensures stray == 0 <==> forall id: nat :: IsRow(t, session, id) ==> id in Claims(t.events, session)
  {
    var ids := ClaimList(t.events, session);
    missing, stray := 0, 0;
    for k := 0 to |ids|
      invariant missing == 0 <==> forall j :: 0 <= j < k ==> IsRow(t, session, ids[j])
    {
      if !IsRow(t, session, ids[k]) {
        missing := missing + 1;
      }
    }
    for id := 0 to |t.rows|
      invariant stray == 0 <==> forall j: nat :: j < id && IsRow(t, session, j) ==> j in ids
    {
      if IsRow(t, session, id) && id !in ids {
        stray := stray + 1;
      }
    }
  }

  predicate IsRow(t: Tables, session: string, id: nat) {
    id < |t.rows| && t.rows[id].session == session
  }

  method ClaimList(events: seq<Event>, session: string) returns (ids: seq<nat>)
    ensures ids == Claims(events, session)
  {
    ids := [];
    var i := 0;
    assert events[..0] == [];
    while i < |events|
      invariant 0 <= i <= |events| && ids == Claims(events[..i], session)
    {
      assert events[..i + 1] == events[..i] + [events[i]];
      ClaimsGrow(events[..i], events[i], session);
      if events[i].session == session && Projects(events[i]) {
        ids := ids + Ids(events[i]);
      }
      i := i + 1;
    }
    assert events[..i] == events;
  }

  // ---- the writer's ledgers ----------------------------------------------

  ghost predicate Increasing(ids: seq<nat>) {
    forall a, b :: 0 <= a < b < |ids| ==> ids[a] < ids[b]
  }

  /** A valid ledger's claims are in order, below what is written, and the session's own rows. */
  lemma {:induction false} ClaimsInOrder(t: Tables, session: string, n: nat)
    requires Valid(t) && n <= |t.events|
    ensures var ids := Claims(t.events[..n], session);
      && Increasing(ids)
      && (forall k :: 0 <= k < |ids| ==> ids[k] < Start(t.events, n) && IsRow(t, session, ids[k]))
  {
    if n > 0 {
      ClaimsInOrder(t, session, n - 1);
      var e := t.events[n - 1];
      assert t.events[..n] == t.events[..n - 1] + [e];
      ClaimsGrow(t.events[..n - 1], e, session);
      if Mine(e, session) {
        HeldBounds(t, n - 1);
      }
    }
  }

  lemma {:induction false} RowsClaimed(t: Tables, session: string, n: nat, id: nat)
    requires Valid(t) && n <= |t.events| && id < Start(t.events, n) && IsRow(t, session, id)
    ensures id in Claims(t.events[..n], session)
  {
    var e := t.events[n - 1];
    assert t.events[..n] == t.events[..n - 1] + [e];
    ClaimsGrow(t.events[..n - 1], e, session);
    if id < Start(t.events, n - 1) {
      RowsClaimed(t, session, n - 1, id);
    } else {
      HeldBounds(t, n - 1);
      assert t.rows[id].session == e.session;
      assert Ids(e)[id - Start(t.events, n - 1)] == id;
    }
  }

  /** Everything a transcript expects is projected, or excused as a noted failure. */
  lemma WitnessedHeld(events: seq<Event>, session: string, parse: Parser, pair: Pair)
    requires Recorded(events, parse) && Faithful(parse) && Witnessed(events, session, parse, pair)
    ensures Present(events, session, pair) || Excused(events, session, pair)
  {
    var w :| 0 <= w < |events| && events[w].session == session && IsEntry(parse(events[w].line))
      && EntryPair(parse(events[w].line)) == pair;
    var line := parse(events[w].line);
    var uid, digest := line.value.uid.value, line.value.digest;
    assert Parsed(events[w], parse);
    if IdentityHeld(events, session, uid, digest) {
      var i :| 0 <= i < |events| && IsIdentity(events[i], session, uid, digest);
      assert PairOf(events[i]) == pair;
    } else {
      forall i | 0 <= i < |events| && events[i].session == session && PairOf(events[i]) == pair
        ensures FailedNoted(events[i])
      {
        assert Parsed(events[i], parse) && Accounted(events, events[i], parse);
      }
      assert PairOf(events[w]) == pair;
    }
  }

  datatype Report = Report(lostLines: nat, digestMismatch: nat, surplusLines: nat, corrupt: nat, lost: nat,
                           duplicates: nat, missingRows: nat, strayRows: nat, rowCount: nat)

  lemma ClaimsClean(t: Tables, session: string)
    requires Valid(t)
    ensures var ids := Claims(t.events, session);
      && Distinct(ids) && (forall k :: 0 <= k < |ids| ==> IsRow(t, session, ids[k]))
      && (forall id: nat :: IsRow(t, session, id) ==> id in ids)
  {
    ClaimsInOrder(t, session, |t.events|);
    assert t.events[..|t.events|] == t.events;
    forall id: nat | IsRow(t, session, id) ensures id in Claims(t.events, session) {
      RowsClaimed(t, session, |t.events|, id);
    }
  }

  lemma EventsClean(events: seq<Event>, session: string, parse: Parser)
    requires Recorded(events, parse)
    ensures forall i :: 0 <= i < |events| && events[i].session == session ==>
      RawFound(events, i) && CountFits(events[i], parse)
    ensures OncePresent(events, session, |events|)
  {
    forall i | 0 <= i < |events| && events[i].session == session
      ensures RawFound(events, i) && CountFits(events[i], parse)
    {
      assert RawKept(events, i) && Parsed(events[i], parse);
    }
  }

  /** The auditor on a ledger the writer keeps: nothing to report. */
  method Audit(t: Tables, session: string, cursor: Cursor, file: Option<File>, siblings: seq<Bytes>, parse: Parser)
    returns (report: Report)
    requires Valid(t) && Recorded(t.events, parse) && Faithful(parse) && CurrentFits(t.events, session, cursor, file)
    ensures report == Report(0, 0, 0, 0, 0, 0, 0, 0, 0)
  {
    EventsClean(t.events, session, parse);
    ClaimsClean(t, session);
    var corrupt, rowCount := LedgerChecks(t.events, session, parse);
    var lines, gone, expected := Transcripts(t.events, session, cursor, file, siblings, parse);
    var present, twice := PresentPairs(t.events, session);
    forall pair | pair in expected ensures Present(t.events, session, pair) || Excused(t.events, session, pair) {
      WitnessedHeld(t.events, session, parse, pair);
    }
    var lost := CountLost(t.events, session, expected, present);
    var missing, stray := CountRows(t, session);
    report := Report(lines.lost, lines.mismatch, lines.surplus, corrupt, lost, |twice|, missing, stray, rowCount);
  }
}
