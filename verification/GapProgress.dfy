/**
  What a running gap scan call knows between any two of its steps: facts about messages that hold as long as its fence
  stands, where its walk is, and what it may save.
 */
module GapProgress {
  import opened Wrappers
  import opened GapCoverage
  import opened GapPages
  import opened GapProof
  import opened GapSlips
  import opened GapStore

  /** What the others do at one point of a call, and whether the call is cut there. */
  datatype Moment = Moment(events: seq<Event>, stop: bool)

  /** The store, what the running call remembers of it, and what the others will still do. */
  datatype Now = Now(store: Store, state: Selection, schedule: seq<Moment>)

  predicate Alive(x: Now) {
    Live(x.store, x.state)
  }

  predicate Quiet(schedule: seq<Moment>) {
    forall m :: m in schedule ==> m.events == []
  }

  predicate SameRows(s: Store, t: Store) {
    && s.world.messages == t.world.messages && s.world.published == t.world.published
    && s.world.nextId == t.world.nextId && s.floor == t.floor
  }

  /** No write of the call can let a row slip. */
  predicate Level(a: Selection) {
    Spares(a.Lower?, a.read, a.policy)
  }

  /** The records of a store are level with the bands a call of the policy would find. */
  predicate LevelStore(s: Store, policy: string) {
    && (s.upper.Some? ==> Spares(false, Read(s.floor, s.coverage, Of(s.upper.value.scan, policy)), policy))
    && (Counts(s) ==> Spares(true, Read(s.floor, s.coverage, Of(s.lower.value.scan, policy)), policy))
  }

  /** Some steps of a running call.  If the others do nothing, no row changes, the call keeps its records, and a call
      whose record is level with its low end lets no row slip. */
  ghost predicate Then(x: Now, y: Now) {
    && Onward(x.store, x.state, y.store, y.state)
    && (Quiet(x.schedule) ==>
          && Quiet(y.schedule) && SameRows(x.store, y.store) && (Mine(x.store, x.state) ==> Mine(y.store, y.state))
          && (Level(x.state) ==> y.store.world.slipped == x.store.world.slipped))
  }

  /** Steps before the certificate is written. */
  ghost predicate Still(x: Now, y: Now) {
    Then(x, y) && (Quiet(x.schedule) ==> x.store.coverage == y.store.coverage)
  }

  lemma ThenOn(x: Now, y: Now, z: Now)
    requires Then(x, y) && Then(y, z)
    ensures Then(x, z)
  {
    OnwardOn(x.store, x.state, y.store, y.state, z.store, z.state);
  }

  lemma StillOn(x: Now, y: Now, z: Now)
    requires Still(x, y) && Still(y, z)
    ensures Still(x, z)
  {
    ThenOn(x, y, z);
  }

  lemma AliveShrinks(x: Now, y: Now)
    requires Then(x, y) && Fenced(x.store, x.state)
    ensures Alive(y) ==> Alive(x) && Shrinks(x.store.world, y.store.world)
  {
    if Alive(y) {
      LiveShrinks(x.store, x.state, y.store, y.state);
    }
  }

  /** All that is wanted in the range is among `ids`, as long as the call's fence stands. */
  ghost predicate Within(x: Now, policy: string, first: int, through: int, ids: set<int>) {
    Alive(x) ==> WantedWithin(x.store.world, policy, first, through, ids)
  }

  lemma WithinOn(x: Now, y: Now, policy: string, first: int, through: int, ids: set<int>)
    requires Then(x, y) && Fenced(x.store, x.state) && through < x.store.world.nextId
    requires Within(x, policy, first, through, ids)
    ensures Within(y, policy, first, through, ids)
  {
    AliveShrinks(x, y);
    if Alive(y) {
      WithinSurvives(x.store.world, y.store.world, policy, first, through, ids);
    }
  }

  /** The local variables of one call that its loops share. */
  datatype Progress = Progress(ceiling: int, candidates: seq<int>, unpublished: set<int>, reached: nat)

  predicate CeilingFollows(a: Selection, ceiling: int) {
    LowEnd(a) <= ceiling || ((a.read.taken.Ceiling? || a.read.taken.Walk?) && ceiling == a.read.taken.ceiling)
  }

  /** The walk stands in the call's band, or still where the record stood that it took up. */
  predicate BelowFollows(a: Selection, below: int, high: int) {
    || LowEnd(a) <= below
    || (a.read.taken.Walk? && below == a.read.taken.below)
    || (a.read.taken.Ceiling? && below == a.read.taken.ceiling && high == a.read.taken.high)
  }

  /** Facts about the running call that hold between any two of its steps. */
  ghost predicate Running(x: Now, policy: string, high: int, st: Progress) {
    && policy == x.state.policy && CeilingFollows(x.state, st.ceiling) && st.ceiling <= high + 1
      && high < x.store.world.nextId
    && Descending(st.candidates) && |st.candidates| <= st.reached
    && (forall id :: id in st.candidates ==> id in st.unpublished)
    && (forall id :: id in st.unpublished ==> id <= high)
    && Within(x, policy, st.ceiling, high, {})
  }

  lemma RunningOn(x: Now, y: Now, policy: string, high: int, st: Progress)
    requires Running(x, policy, high, st) && Then(x, y) && Fenced(x.store, x.state)
    ensures Running(y, policy, high, st)
  {
    WithinOn(x, y, policy, st.ceiling, high, {});
  }

  /** Where the walk is: pages are read from `below` down; `replay` are saved candidates still to revisit. */
  datatype Position = Position(below: int, replay: seq<int>, complete: bool)

  /** Everything wanted from the position up, within the band, has been handed out or waits in the replay list. */
  ghost predicate Walking(x: Now, policy: string, low: int, high: int, at: Position, st: Progress) {
    && LowEnd(x.state) <= low && BelowFollows(x.state, at.below, high)
    && at.below <= high + 1 && Descending(at.replay)
    && (forall id :: id in at.replay || id in st.unpublished ==> Max(low, at.below) <= id <= high)
    && (forall c, id :: c in st.candidates && id in at.replay ==> id < c)
    && (at.complete ==> at.replay == [])
    && Within(x, policy, Max(low, at.below), high, ToSet(st.candidates) + ToSet(at.replay))
    && (at.complete ==> Within(x, policy, low, high, ToSet(st.candidates)))
  }

  lemma WalkingOn(x: Now, y: Now, policy: string, low: int, high: int, at: Position, st: Progress)
    requires Walking(x, policy, low, high, at, st) && Then(x, y) && Fenced(x.store, x.state)
      && high < x.store.world.nextId
    ensures Walking(y, policy, low, high, at, st)
  {
    WithinOn(x, y, policy, Max(low, at.below), high, ToSet(st.candidates) + ToSet(at.replay));
    if at.complete {
      WithinOn(x, y, policy, low, high, ToSet(st.candidates));
    }
  }

  /** A page has been handed out. */
  lemma WalkGoesOn(x: Now, policy: string, low: int, high: int, newer: seq<int>, next: Position, st: Progress)
    requires Running(x, policy, high, st) && LowEnd(x.state) <= low && BelowFollows(x.state, next.below, high)
    requires next.below <= high + 1 && Descending(next.replay) && (next.complete ==> next.replay == [])
    requires forall id :: id in next.replay || id in st.unpublished ==> Max(low, next.below) <= id <= high
    requires forall id :: id in st.candidates ==> id in newer
    requires forall c, id :: c in newer && id in next.replay ==> id < c
    requires Within(x, policy, if next.complete then low else Max(low, next.below), high,
                    ToSet(st.candidates) + ToSet(next.replay))
    ensures Walking(x, policy, low, high, next, st)
  {
    assert next.complete ==> ToSet(st.candidates) + ToSet(next.replay) == ToSet(st.candidates);
  }

  /** Without a saved walk, the walk starts at the ceiling. */
  lemma StartsWalking(x: Now, policy: string, from: int, high: int, ceiling: int)
    requires Running(x, policy, high, Progress(ceiling, [], {}, 0)) && LowEnd(x.state) <= from
    requires BelowFollows(x.state, ceiling, high)
    ensures Walking(x, policy, from, high, Position(ceiling, [], from > high), Progress(ceiling, [], {}, 0))
  {
    assert ToSet([]) == {};
  }

  /** With the newest arrivals read, the walk goes on where the saved one stands. */
  lemma ArrivalsRead(x: Now, policy: string, low: int, high: int, walked: int, at: Position, st: Progress)
    requires Running(x, policy, high, st) && LowEnd(x.state) <= low && BelowFollows(x.state, at.below, high)
    requires walked < high && at.below <= walked + 1 && !at.complete && Descending(at.replay)
    requires forall id :: id in at.replay ==> Max(low, at.below) <= id <= walked
    requires st.unpublished == ToSet(st.candidates) && (forall id :: id in st.candidates ==> Max(low, walked + 1) <= id)
    requires Within(x, policy, Max(low, walked + 1), high, ToSet(st.candidates))
    requires Within(x, policy, Max(low, at.below), walked, ToSet(at.replay))
    ensures Walking(x, policy, low, high, at, st)
  {
  }

  /** A row without a chunk when its page was read is not wanted later either. */
  lemma RowDropped(x: Now, y: Now, page: World, policy: string, row: int)
    requires Then(x, y) && Fenced(x.store, x.state) && (Alive(x) ==> Shrinks(page, x.store.world))
    requires row < page.nextId <= x.store.world.nextId && !Chunked(page, policy, row)
    ensures Alive(y) ==> !Wanted(y.store.world, policy, row)
  {
    AliveShrinks(x, y);
    assert Alive(y) && Wanted(y.store.world, policy, row) ==> Wanted(x.store.world, policy, row);
  }

  /** A walk to save when the call ends: what it says is true down to the call's low end, as long as the fence
      stands. */
  ghost predicate Saveable(x: Now, policy: string, low: int, high: int, progress: Option<Scan>) {
    progress.Some? ==>
      && policy == x.state.policy && low == LowEnd(x.state)
      && progress.value.Walk? && progress.value.policy == policy && progress.value.high == high
      && FollowsOn(progress.value, x.state.read.taken, low)
      && (forall id :: id in progress.value.pending ==> low <= id)
      && (Alive(x) ==> Owes(x.store.world, progress.value, low))
  }

  lemma SaveableOn(x: Now, y: Now, policy: string, low: int, high: int, progress: Option<Scan>)
    requires Then(x, y) && Fenced(x.store, x.state) && Saveable(x, policy, low, high, progress)
    ensures Saveable(y, policy, low, high, progress)
  {
    AliveShrinks(x, y);
    if Alive(y) && progress.Some? {
      OwesSurvives(x.store.world, y.store.world, progress.value, low);
    }
  }

  /** A walk of the whole band may be saved where it stands. */
  lemma WalkSaveable(x: Now, policy: string, low: int, high: int, at: Position, st: Progress)
    requires Running(x, policy, high, st) && Walking(x, policy, low, high, at, st)
    requires low == LowEnd(x.state) && low <= high + 1
    ensures Saveable(x, policy, low, high,
                     Some(Walk(policy, high, st.ceiling, at.below, st.unpublished + ToSet(at.replay))))
  {
  }

  /** A walk that has read the newest arrivals down to `top` may be saved. */
  lemma TopSaveable(x: Now, policy: string, low: int, high: int, top: int, st: Progress)
    requires Running(x, policy, high, st) && low == LowEnd(x.state) && low <= top <= high + 1
    requires st.unpublished == ToSet(st.candidates) && (forall id :: id in st.candidates ==> top <= id)
    requires Within(x, policy, top, high, ToSet(st.candidates))
    ensures Saveable(x, policy, low, high, Some(Walk(policy, high, st.ceiling, top, st.unpublished)))
  {
  }

  /** The walk to save names every row handed out. */
  predicate Holds(progress: Option<Scan>, handed: seq<int>) {
    progress.Some? ==> progress.value.Walk? && forall id :: id in handed ==> id in progress.value.pending
  }

  /** What is taken up is no finished record, and no message has arrived above a walk that it holds. */
  predicate Continues(taken: Scan, high: int) {
    !taken.Done? && (taken.Walk? ==> high <= taken.high)
  }

  /** The call goes on from what it takes up, which is no finished record, unless it is cut among new arrivals. */
  predicate Goes(taken: Scan, high: int, schedule: seq<Moment>) {
    !taken.Done? && (Continues(taken, high) || schedule == [])
  }

  /** Where the pages begin for a call that takes this up. */
  function StartsAt(taken: Scan, high: int): int {
    if taken.Walk? && taken.high == high then taken.below
    else if taken.Ceiling? && taken.high == high then taken.ceiling
    else high + 1
  }

  /** The saved candidates that the call has to revisit first. */
  function Waiting(taken: Scan, low: int, high: int): set<int> {
    if taken.Walk? && taken.high == high then set id | id in taken.pending && low <= id <= high else {}
  }

  /** The walk to save stands lower in the band than where the call began. */
  predicate Lowered(progress: Option<Scan>, taken: Scan, low: int, high: int) {
    progress.Some? && progress.value.Walk? && Max(low, progress.value.below) < StartsAt(taken, high)
  }

  /** The record of the call's band. */
  function BandScan(x: Now): Scan {
    var own := if x.state.Upper? then x.store.upper else x.store.lower;
    if own.Some? then own.value.scan else Empty
  }

  /** The band is certified, joined to the certificate before, and its record says that it is finished. */
  ghost predicate BandDone(x: Now, before: Option<Coverage>, low: int, high: int, handed: seq<int>) {
    && x.store.coverage == Some(CoverageValue(before, low, Through(high, handed), x.state.policy))
    && WantedWithin(x.store.world, x.state.policy, low, high, ToSet(handed))
    && BandScan(x) == Done(x.state.policy, high, ToSet(handed), low)
  }

  /** The band's record is a walk of the whole band that keeps every row handed out and all that is wanted from its
      position up, and the certificate is as it was. */
  ghost predicate LeavesOff(x: Now, before: Option<Coverage>, low: int, high: int, handed: seq<int>) {
    && BandScan(x).Walk? && BandScan(x).policy == x.state.policy && BandScan(x).high == high
    && Owes(x.store.world, BandScan(x), low) && Holds(Some(BandScan(x)), handed) && x.store.coverage == before
  }

  lemma ReplaySize(taken: Scan, low: int, high: int, replay: seq<int>)
    requires Descending(replay)
    requires if taken.Walk? && taken.high == high then
               forall id :: id in replay <==> id in taken.pending && low <= id <= high
             else replay == []
    ensures |replay| == |Waiting(taken, low, high)|
  {
    SetSize(replay);
    assert ToSet(replay) == Waiting(taken, low, high);
  }

  /** Of a saved range, what a call with this low end has to revisit. */
  lemma TakenWithin(w: World, policy: string, saved: set<int>, from: int, low: int, high: int, ids: seq<int>)
    requires WantedWithin(w, policy, from, high, saved)
    requires forall id :: id in ids <==> id in saved && low <= id <= high
    ensures WantedWithin(w, policy, Max(low, from), high, ToSet(ids))
  {
  }

  /** Writing a true record under a sound certificate keeps the store sound. */
  lemma WriteFits(s: Store, w: Write)
    requires StoreOk(s) && s.upper.Some? && !w.scan.Empty? && (w.Finish? <==> w.scan.Done?)
    requires HasRead(s, w.low, w.read, w.scan.policy) && FitsRead(s, w, End(w.low, w.read, w.scan.policy))
    requires Proves(Slipped(s.world, w), w.scan) && Covers(Slipped(s.world, w), Certified(s, w))
    ensures Writable(s, w)
  {
    SlippedShrinks(s.world, SlipRows(s.world, w));
    AllSurvive(s.past, s.world, Slipped(s.world, w));
  }

  /** What a call may save as progress. */
  lemma SaveFits(s: Store, w: Write)
    requires StoreOk(s) && s.upper.Some? && w.Save? && (w.scan.Ceiling? || w.scan.Walk?)
    requires HasRead(s, w.low, w.read, w.scan.policy)
    requires FollowsOn(w.scan, w.read.taken, End(w.low, w.read, w.scan.policy))
    requires w.scan.Ceiling? ==> Proves(s.world, w.scan)
    requires w.scan.Walk? ==> Owes(s.world, w.scan, End(w.low, w.read, w.scan.policy))
    ensures Writable(s, w)
  {
    if w.scan.Walk? {
      WalkExactly(s.world, w);
    } else {
      assert Slipped(s.world, w) == s.world;
    }
    SlippedShrinks(s.world, SlipRows(s.world, w));
    CoverageSurvives(s.world, Slipped(s.world, w), s.coverage);
    WriteFits(s, w);
  }

  /** What a call remembers once its write went through. */
  function Wrote(a: Selection, t: Store): Selection
    requires t.upper.Some? && (a.Lower? ==> t.lower.Some?)
  {
    if a.Upper? then a.(fence := t.upper.value) else a.(own := t.lower.value)
  }

  /** A write, or none because the record is another's. */
  lemma SwapKeeps(x: Now, y: Now, w: Write)
    requires StoreOk(x.store) && Fenced(x.store, x.state) && x.schedule == y.schedule
    requires Mine(x.store, x.state) ==>
      && w.low == x.state.Lower? && w.read == x.state.read && !w.scan.Empty? && w.scan.policy == x.state.policy
      && Writable(x.store, w) && y.store == Written(x.store, w) && y.state == Wrote(x.state, y.store)
    requires !Mine(x.store, x.state) ==> y.store == x.store && y.state == x.state
    ensures Then(x, y) && (w.Save? ==> Still(x, y))
  {
    if Mine(x.store, x.state) {
      StepOk(x.store, Writes(w));
      assert Step(x.store, Writes(w)) == y.store;
      if Level(x.state) {
        SparedSlipsNone(x.store, w);
      }
    }
  }

  /** Where a row of the walk comes from: it waited to be revisited, or a page below the position lists it. */
  predicate Origin(w: World, policy: string, at: Position, id: int) {
    id in at.replay || (id < at.below && Unpublished(w, policy, id))
  }

  /** How many rows the walk can still hand out. */
  function Room(low: int, at: Position): int {
    |at.replay| + Max(low, at.below) - low
  }

  /** The call is cut as soon as it hands out the row it has to revisit first. */
  predicate Stops(x: Now, at: Position) {
    && at.replay != [] && at.replay[0] in x.store.world.messages && at.replay[0] !in x.store.world.published
    && x.schedule != [] && x.schedule[0].stop
  }

  /** How far down the call has read: to its low end, or to where the finished record began that it took up. */
  predicate ReadFrom(a: Selection, first: int) {
    first == LowEnd(a) || (a.Upper? && a.read.taken.Done? && first == a.read.taken.from && LowEnd(a) < first)
  }

  /** The certificate of an exhausted band, and the record that goes with it. */
  lemma DoneFits(s: Store, a: Selection, first: int, high: int, handed: seq<int>, before: Option<Coverage>)
    requires StoreOk(s) && Fenced(s, a) && Live(s, a) && before in s.past.stood && ReadFrom(a, first)
    requires LowEnd(a) <= high < s.world.nextId && first <= high + 1 && Descending(handed)
    requires forall id :: id in handed ==> LowEnd(a) <= id <= high
    requires WantedWithin(s.world, a.policy, first, high, ToSet(handed))
    ensures Writable(s, DoneWrite(a, high, handed, before))
  {
    OldestHanded(handed);
    var w := DoneWrite(a, high, handed, before);
    var v, through := Slipped(s.world, w), Through(high, handed);
    SlippedShrinks(s.world, SlipRows(s.world, w));
    CoverageSurvives(s.world, v, before);
    forall id | LowEnd(a) <= id < first && Wanted(s.world, a.policy, id) && id !in ToSet(handed)
      ensures (a.policy, id) in SlipRows(s.world, w)
    {
    }
    forall id | LowEnd(a) <= id <= high && Wanted(v, a.policy, id) ensures id in ToSet(handed) {
      assert Wanted(s.world, a.policy, id);
    }
    CertificateSound(v, before, a.policy, LowEnd(a), through);
    WriteFits(s, w);
  }

  function Through(high: int, handed: seq<int>): int {
    if handed == [] then high else handed[|handed| - 1] - 1
  }

  /** What exhaustion writes. */
  function DoneWrite(a: Selection, high: int, handed: seq<int>, before: Option<Coverage>): Write {
    Finish(a.Lower?, Done(a.policy, high, ToSet(handed), LowEnd(a)), a.read, before, Through(high, handed))
  }

  /** The bands of the interval arithmetic lie between the cursor's ends. */
  lemma BandBounds(floor: int, high: int, policy: string, coverage: Option<Coverage>, band: Range)
    requires floor <= high && WellFormed(coverage)
    requires band in GapRanges(Some(Range(floor, high)), CHUNK_POLICY_REVISION, policy, coverage)
    ensures floor <= band.low <= band.high <= high
    ensures var low := IsLow(coverage, policy, band);
      band.low == if low then floor else UpperLow(floor, coverage, policy)
  {
  }

  /** The band lies below the certificate of its policy. */
  predicate IsLow(coverage: Option<Coverage>, policy: string, band: Range) {
    coverage.Some? && coverage.value.policy == policy && band.low < coverage.value.first
  }

  /** The progress of a record for this policy. */
  function Of(scan: Scan, policy: string): (taken: Scan)
    ensures taken.Empty? || (taken == scan && taken.policy == policy)
  {
    if scan.Empty? || scan.policy != policy then Empty else scan
  }

  /** Once the upper record is read. */
  function ReadUpper(s: Store, policy: string, floor: int, coverage: Option<Coverage>): Selection
    requires s.upper.Some?
  {
    Upper(policy, Read(floor, coverage, Of(s.upper.value.scan, policy)), s.upper.value)
  }

  /** And once the lower record is; one of another epoch counts for nothing. */
  function ReadLower(s: Store, a: Selection): Selection
    requires s.lower.Some?
  {
    var own := s.lower.value;
    Lower(a.policy, a.read.(taken := if own.epoch == a.fence.epoch then Of(own.scan, a.policy) else Empty), a.fence,
      own)
  }

  lemma ReadFenced(s: Store, policy: string, floor: int, coverage: Option<Coverage>)
    requires StoreOk(s) && s.upper.Some? && floor in s.past.floors && coverage in s.past.covers
    ensures Fenced(s, ReadUpper(s, policy, floor, coverage))
  {
    assert Proves(s.world, s.upper.value.scan);
  }

  lemma ReadLowerFenced(s: Store, a: Selection)
    requires StoreOk(s) && s.lower.Some? && Fenced(s, a) && a.read.floor in s.past.floors
      && a.read.coverage in s.past.covers
    requires a.read.coverage.Some? && a.read.coverage.value.policy == a.policy
      && a.read.floor < a.read.coverage.value.first
    ensures Fenced(s, ReadLower(s, a))
  {
  }

  lemma ReplayRoom(low: int, high: int, at: Position)
    requires Descending(at.replay) && (forall id :: id in at.replay ==> Max(low, at.below) <= id <= high)
    requires at.below <= high + 1 && low <= high + 1
    ensures Room(low, at) <= high + 1 - low
  {
    forall k | 0 <= k < |at.replay| ensures Max(low, at.below) <= at.replay[k] < high + 1 {
      assert at.replay[k] in at.replay;
    }
    SpanCount(at.replay, Max(low, at.below), high + 1);
  }

  lemma BandCount(low: int, high: int, handed: seq<int>)
    requires Descending(handed) && (forall id :: id in handed ==> low <= id <= high)
    ensures handed == [] || |handed| <= high + 1 - low
  {
    forall k | 0 <= k < |handed| ensures low <= handed[k] < high + 1 {
      assert handed[k] in handed;
    }
    SpanCount(handed, low, high + 1);
  }

  /** The upper record is a walk of this range, at or below the position, without a row below `low`; all that is wanted
      between its position and `low` has slipped. */
  ghost predicate LeavesWalk(s: Store, policy: string, low: int, high: int, position: int) {
    && s.upper.Some? && s.upper.value.scan.Walk?
    && var w := s.upper.value.scan;
       && w.policy == policy && w.high == high && w.below <= position
       && (forall id :: id in w.pending ==> low <= id)
       && (forall id :: w.below <= id < low ==> !Wanted(s.world, policy, id))
  }
}
