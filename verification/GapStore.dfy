/**
  The gap scan's stored state as every process sees it: one progress record for the upper band, one for the band below
  the certificate, the certificate itself, and the triggers that drop them when messages or chunks change.
 */
module GapStore {
  import opened Wrappers
  import opened GapCoverage
  import opened GapProof

  /** A stored record.  Its epoch is a fresh token given when the record is made anew, and its turn counts writes. */
  datatype Record = Record(scan: Scan, epoch: nat, turn: nat)

  /** History, which the source does not keep, of what a call may have read some time ago: the low ends and
      certificates there have been, the records since the triggers last fired, and the certificates that stood with the
      present upper record. */
  datatype Past = Past(floors: set<int>, covers: set<Option<Coverage>>, scans: set<Scan>, stood: set<Option<Coverage>>)

  /** `floor` is the oldest message id the cursor reaches down to, `issued` the newest token given out. */
  datatype Store = Store(world: World, floor: int, upper: Option<Record>, lower: Option<Record>,
                         coverage: Option<Coverage>, issued: nat, past: Past)

  function First(floor: int): Store {
    Store(World(map[], floor, {}, {}), floor, None, None, None, 0, Past({floor}, {None}, {Empty}, {None}))
  }

  /** A lower record counts only while its epoch is the upper record's. */
  predicate Counts(s: Store) {
    s.lower.Some? && s.upper.Some? && s.lower.value.epoch == s.upper.value.epoch
  }

  /** All that the records and the certificate say is true, and was when it was read, but for the rows that slipped. */
  predicate StoreOk(s: Store) {
    && WorldValid(s.world) && Remembers(s) && (s.coverage.Some? ==> s.upper.Some?)
    && (forall c :: c in s.past.stood ==> Covers(s.world, c))
    && (forall scan :: scan in s.past.scans ==> Proves(s.world, scan))
    && (s.upper.Some? ==> s.upper.value.epoch <= s.issued)
    && (s.lower.Some? ==> s.lower.value.epoch <= s.issued && Shaped(s.world, s.lower.value.scan))
  }

  /** What is on record now is part of the history. */
  predicate Remembers(s: Store) {
    && s.floor in s.past.floors && s.coverage in s.past.covers && s.coverage in s.past.stood && Empty in s.past.scans
    && (s.upper.Some? ==> s.upper.value.scan in s.past.scans)
    && (Counts(s) ==> s.lower.value.scan in s.past.scans)
  }

  // ---- writes ------------------------------------------------------------

  /** What a call has read before it scans: the cursor's low end, the certificate, and the progress it takes up. */
  datatype Read = Read(floor: int, coverage: Option<Coverage>, taken: Scan)

  /** A write by a call: progress of its band, or its end, which certifies from the band's low end up to `through`,
      joined to the certificate it read before. */
  datatype Write =
    | Save(low: bool, scan: Scan, read: Read)
    | Finish(low: bool, scan: Scan, read: Read, before: Option<Coverage>, through: int)

  /** Where the upper band of a policy begins. */
  function UpperLow(floor: int, coverage: Option<Coverage>, policy: string): int {
    if coverage.Some? && coverage.value.policy == policy then Max(floor, coverage.value.through + 1) else floor
  }

  /** The low end of the band that a call scans with what it has read. */
  function End(low: bool, r: Read, policy: string): int {
    if low then r.floor else UpperLow(r.floor, r.coverage, policy)
  }

  /** A walk or ceiling of a call goes down to the call's low end, unless what it took up already stood lower. */
  predicate FollowsOn(s: Scan, taken: Scan, end: int) {
    && (s.Ceiling? || s.Walk? ==> end <= s.ceiling || ((taken.Ceiling? || taken.Walk?) && s.ceiling == taken.ceiling))
    && (s.Walk? ==>
          || end <= s.below
          || (taken.Walk? && s.below == taken.below)
          || (taken.Ceiling? && s.below == taken.ceiling && s.high == taken.high))
  }

  /** The rows a write lets slip.  Progress: a walk that it took up stands below the call's low end, and the rows there
      that the walk was holding, or that came after it, are forgotten.  An end: the finished record that it took up
      begins above the call's low end, and the rows in between were not read. */
  function SlipRows(w: World, write: Write): set<(string, int)>
    requires !write.scan.Empty?
  {
    var s, taken := write.scan, write.read.taken;
    var end := End(write.low, write.read, s.policy);
    if write.Save? && s.Walk? && taken.Walk? then
      set id | id in w.messages && Forgets(s, taken, end, id) && Wanted(w, s.policy, id) :: (s.policy, id)
    else if write.Finish? && s.Done? && !write.low && taken.Done? then
      set id | id in w.messages && end <= id < taken.from && id !in s.pending && Wanted(w, s.policy, id) ::
        (s.policy, id)
    else {}
  }

  predicate Forgets(s: Scan, taken: Scan, end: int, id: int)
    requires s.Walk? && taken.Walk?
  {
    s.below <= id < end && id !in s.pending && (id in taken.pending || taken.high < id)
  }

  function Slipped(w: World, write: Write): World
    requires !write.scan.Empty?
  {
    w.(slipped := w.slipped + SlipRows(w, write))
  }

  function Certified(s: Store, w: Write): Option<Coverage>
    requires !w.scan.Empty?
  {
    if w.Save? then s.coverage
    else Some(CoverageValue(w.before, End(w.low, w.read, w.scan.policy), w.through, w.scan.policy))
  }

  function Written(s: Store, w: Write): Store
    requires s.upper.Some? && !w.scan.Empty?
  {
    var up, cover := s.upper.value, Certified(s, w);
    s.(world := Slipped(s.world, w),
       upper := if w.low then s.upper else Some(Record(w.scan, up.epoch, up.turn + 1)),
       lower := if w.low then Some(Record(w.scan, up.epoch, up.turn)) else s.lower,
       coverage := cover,
       past := s.past.(covers := s.past.covers + {cover}, scans := s.past.scans + {w.scan},
                       stood := if w.low then s.past.stood + {cover} else {cover}))
  }

  /** What the call has read had been there; the lower band is that below a certificate of the policy. */
  predicate HasRead(s: Store, low: bool, r: Read, policy: string) {
    && r.floor in s.past.floors && r.coverage in s.past.covers && r.taken in s.past.scans
    && (r.taken.Empty? || r.taken.policy == policy)
    && (low ==> r.coverage.Some? && r.coverage.value.policy == policy && r.floor < r.coverage.value.first)
  }

  /** What a call may write: it has read what it says it has, its progress follows on what it took up, and its record
      and certificate are true but for the rows it lets slip. */
  predicate Writable(s: Store, w: Write) {
    && s.upper.Some? && !w.scan.Empty? && (w.Finish? <==> w.scan.Done?)
    && HasRead(s, w.low, w.read, w.scan.policy) && FitsRead(s, w, End(w.low, w.read, w.scan.policy))
    && StoreOk(Written(s, w))
  }

  predicate FitsRead(s: Store, w: Write, end: int)
    requires w.Finish? <==> w.scan.Done?
  {
    && (w.Save? ==> FollowsOn(w.scan, w.read.taken, end))
    && (w.Finish? ==>
      w.before in s.past.stood && w.scan.from == end && end <= w.through + 1 && w.through <= w.scan.high)
  }

  // ---- what can happen to the store --------------------------------------

  /** Messages and chunks change and the cursor's low end moves; a call makes a missing record; a call writes one. */
  datatype Event = Changes(change: Change, floor: int) | Begins(low: bool) | Writes(write: Write)

  /** The triggers drop the upper record and the certificate; only an edited message drops the lower record too. */
  function Changed(s: Store, c: Change, floor: int): Store {
    var loud := Loud(s.world, c);
    var cover := if loud then None else s.coverage;
    s.(world := After(s.world, c), floor := floor, upper := if loud then None else s.upper,
       lower := if EditHeard(s.world, c) then None else s.lower, coverage := cover,
       past := Past(s.past.floors + {floor}, s.past.covers + {cover}, if loud then {Empty} else s.past.scans,
                    if loud then {None} else s.past.stood))
  }

  function Begun(s: Store, low: bool): Store {
    if s.upper.None? then
      s.(upper := Some(Record(Empty, s.issued + 1, 1)), issued := s.issued + 1, past := s.past.(stood := {s.coverage}))
    else if low && s.lower.None? then s.(lower := Some(Record(Empty, s.upper.value.epoch, s.upper.value.turn)))
    else s
  }

  function Step(s: Store, e: Event): Store {
    match e
    case Changes(c, floor) => Changed(s, c, floor)
    case Begins(low) => Begun(s, low)
    case Writes(w) => if Writable(s, w) then Written(s, w) else s
  }

  function Run(s: Store, events: seq<Event>): Store {
    if events == [] then s else Step(Run(s, events[..|events| - 1]), events[|events| - 1])
  }

  lemma RunOn(s: Store, events: seq<Event>, e: Event)
    ensures Run(s, events + [e]) == Step(Run(s, events), e)
  {
    assert (events + [e])[..|events|] == events;
  }

  lemma {:induction false} RunAppend(s: Store, events: seq<Event>, more: seq<Event>)
    ensures Run(s, events + more) == Run(Run(s, events), more)
  {
    if more == [] {
      assert events + more == events;
    } else {
      var front, last := more[..|more| - 1], more[|more| - 1];
      RunAppend(s, events, front);
      assert events + more == (events + front) + [last];
      RunOn(s, events + front, last);
    }
  }

  // ---- the fence ---------------------------------------------------------

  /** What a running call remembers: what it has read, and of the records the upper one, which is its fence; a call that
      scans the lower band has read that band's own record besides. */
  datatype Selection =
    | Upper(policy: string, read: Read, fence: Record)
    | Lower(policy: string, read: Read, fence: Record, own: Record)

  function LowEnd(a: Selection): int {
    End(a.Lower?, a.read, a.policy)
  }

  /** The upper record is the one the call read or last wrote. */
  predicate Live(s: Store, a: Selection) {
    s.upper == Some(a.fence)
  }

  /** A write by this call would go through. */
  predicate Mine(s: Store, a: Selection) {
    Live(s, a) && (a.Lower? ==> s.lower == Some(a.own))
  }

  predicate Later(r: Record, q: Record) {
    r.epoch > q.epoch || (r.epoch == q.epoch && r.turn > q.turn)
  }

  /** A record that is not the fence came after it, and as long as the fence stands the call has read what was there. */
  ghost predicate Fenced(s: Store, a: Selection) {
    && a.fence.epoch <= s.issued && (s.upper.Some? ==> s.upper.value == a.fence || Later(s.upper.value, a.fence))
    && Shaped(s.world, a.read.taken) && (Live(s, a) ==> HasRead(s, a.Lower?, a.read, a.policy))
  }

  /** While the upper record's epoch lasts, nothing comes to be wanted. */
  ghost predicate EpochKept(s: Store, t: Store) {
    && s.issued <= t.issued && s.world.nextId <= t.world.nextId && s.past.covers <= t.past.covers
    && s.past.floors <= t.past.floors
    && (t.upper.Some? && t.upper.value.epoch <= s.issued ==>
          && s.upper.Some? && s.upper.value.epoch == t.upper.value.epoch && Shrinks(s.world, t.world)
          && s.past.scans <= t.past.scans)
  }

  /** Some steps of a running call and of the others: a call that lost its fence never has it again. */
  ghost predicate Onward(s: Store, a: Selection, t: Store, b: Selection) {
    && EpochKept(s, t) && a.Lower? == b.Lower? && a.fence.epoch == b.fence.epoch && a.policy == b.policy
      && a.read == b.read
    && (Live(t, b) ==> Live(s, a))
  }

  lemma LiveShrinks(s: Store, a: Selection, t: Store, b: Selection)
    requires Onward(s, a, t, b) && Fenced(s, a) && Live(t, b)
    ensures Live(s, a) && Shrinks(s.world, t.world)
  {
  }

  lemma EpochOn(s: Store, t: Store, u: Store)
    requires EpochKept(s, t) && EpochKept(t, u)
    ensures EpochKept(s, u)
  {
  }

  lemma OnwardOn(s: Store, a: Selection, t: Store, b: Selection, u: Store, c: Selection)
    requires Onward(s, a, t, b) && Onward(t, b, u, c)
    ensures Onward(s, a, u, c)
  {
    EpochOn(s, t, u);
  }

  // ---- what every event keeps --------------------------------------------

  lemma ChangedOk(s: Store, c: Change, floor: int)
    requires StoreOk(s)
    ensures StoreOk(Changed(s, c, floor)) && EpochKept(s, Changed(s, c, floor))
  {
    var t := Changed(s, c, floor);
    AfterShrinks(s.world, c);
    if !Loud(s.world, c) {
      AllSurvive(s.past, s.world, t.world);
    }
  }

  lemma AllSurvive(past: Past, w: World, v: World)
    requires Shrinks(w, v)
    requires (forall c :: c in past.stood ==> Covers(w, c)) && (forall scan :: scan in past.scans ==> Proves(w, scan))
    ensures (forall c :: c in past.stood ==> Covers(v, c)) && (forall scan :: scan in past.scans ==> Proves(v, scan))
  {
    forall c | c in past.stood ensures Covers(v, c) {
      CoverageSurvives(w, v, c);
    }
    forall scan | scan in past.scans ensures Proves(v, scan) {
      ProofSurvives(w, v, scan);
    }
  }

  lemma StepOk(s: Store, e: Event)
    requires StoreOk(s)
    ensures StoreOk(Step(s, e)) && EpochKept(s, Step(s, e))
  {
    match e
    case Changes(c, floor) => ChangedOk(s, c, floor);
    case Begins(low) =>
    case Writes(w) =>
      if !w.scan.Empty? {
        SlippedShrinks(s.world, SlipRows(s.world, w));
      }
  }

  lemma StepFenced(s: Store, a: Selection, e: Event)
    requires StoreOk(s) && Fenced(s, a)
    ensures Fenced(Step(s, e), a) && Onward(s, a, Step(s, e), a)
    ensures Live(Step(s, e), a) ==> s.past.stood <= Step(s, e).past.stood
  {
    StepOk(s, e);
  }

  /** Whatever happens keeps every stored claim true but for what slips, and a fence that it breaks stays broken. */
  lemma {:induction false} RunOk(s: Store, a: Selection, events: seq<Event>)
    requires StoreOk(s) && Fenced(s, a)
    ensures StoreOk(Run(s, events)) && Fenced(Run(s, events), a) && Onward(s, a, Run(s, events), a)
    ensures Live(Run(s, events), a) ==> s.past.stood <= Run(s, events).past.stood
  {
    if events != [] {
      var front, last := events[..|events| - 1], events[|events| - 1];
      RunOk(s, a, front);
      StepOk(Run(s, front), last);
      StepFenced(Run(s, front), a, last);
      EpochOn(s, Run(s, front), Run(s, events));
    }
  }
}
