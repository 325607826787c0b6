/**
  The gap scan as it is meant to run: one policy, a cursor whose low end stays where it is, messages that are not edited
  and chunks that are not taken back.  Then nothing slips, whatever else happens.
 */
module GapSteady {
  import opened Wrappers
  import opened GapCoverage
  import opened GapProof
  import opened GapStore
  import opened GapSlips

  /** Publications, arrivals and deletions, records made anew, and writes by calls of the one policy. */
  predicate Fair(policy: string, floor: int, e: Event) {
    match e
    case Changes(c, f) => f == floor && c.edits == map[] && c.unpublish == {}
    case Begins(_) => true
    case Writes(w) => w.scan.Empty? || w.scan.policy == policy
  }

  /** Where the band above the certificate begins. */
  function Base(floor: int, c: Option<Coverage>): int {
    if c.Some? then c.value.through + 1 else floor
  }

  /** What a call may have read: every certificate begins at the floor and ends no higher than the present one, no
      record reaches below the floor, and none that is finished begins above the present certificate's end. */
  ghost predicate Aligned(policy: string, floor: int, s: Store) {
    && s.past.floors == {floor} && s.floor == floor && s.world.slipped == {} && s.past.stood == {s.coverage}
    && (forall c :: c in s.past.covers ==> CoverAligned(policy, floor, s.coverage, c))
    && (forall scan :: scan in s.past.scans ==> ScanAligned(policy, floor, s.coverage, scan))
  }

  predicate CoverAligned(policy: string, floor: int, cover: Option<Coverage>, c: Option<Coverage>) {
    c.Some? ==>
      && c.value.policy == policy && c.value.first == floor && WellFormed(c)
      && cover.Some? && c.value.through <= cover.value.through
  }

  predicate ScanAligned(policy: string, floor: int, cover: Option<Coverage>, scan: Scan) {
    match scan
    case Empty => true
    case Ceiling(p, _, ceiling) => p == policy && floor <= ceiling
    case Walk(p, _, ceiling, below, _) => p == policy && floor <= ceiling && floor <= below
    case Done(p, _, _, from) => p == policy && floor <= from <= Base(floor, cover)
  }

  /** The low end of a call lies between the floor and the end of the present certificate. */
  lemma EndAligned(policy: string, floor: int, s: Store, low: bool, r: Read)
    requires StoreOk(s) && Aligned(policy, floor, s) && HasRead(s, low, r, policy)
    ensures !low && floor <= End(low, r, policy) <= Base(floor, s.coverage)
  {
    assert CoverAligned(policy, floor, s.coverage, r.coverage) && CoverAligned(policy, floor, s.coverage, s.coverage);
  }

  /** So a write lets nothing slip: below its low end everything is certified. */
  lemma NothingSlips(policy: string, floor: int, s: Store, w: Write)
    requires StoreOk(s) && Aligned(policy, floor, s) && Writable(s, w) && w.scan.policy == policy
    ensures SlipRows(s.world, w) == {}
  {
    EndAligned(policy, floor, s, w.low, w.read);
    assert ScanAligned(policy, floor, s.coverage, w.read.taken);
    assert CoverAligned(policy, floor, s.coverage, s.coverage) && Covers(s.world, s.coverage);
    forall id | floor <= id < Base(floor, s.coverage) ensures !Wanted(s.world, policy, id) {
    }
  }

  lemma WriteAligned(policy: string, floor: int, s: Store, w: Write)
    requires StoreOk(s) && Aligned(policy, floor, s) && Writable(s, w) && w.scan.policy == policy
    ensures Aligned(policy, floor, Written(s, w))
  {
    var t := Written(s, w);
    NothingSlips(policy, floor, s, w);
    EndAligned(policy, floor, s, w.low, w.read);
    assert ScanAligned(policy, floor, s.coverage, w.read.taken);
    assert CoverAligned(policy, floor, s.coverage, s.coverage);
    forall c | c in t.past.covers ensures CoverAligned(policy, floor, t.coverage, c) {
    }
    forall scan | scan in t.past.scans ensures ScanAligned(policy, floor, t.coverage, scan) {
    }
  }

  lemma StepAligned(policy: string, floor: int, s: Store, e: Event)
    requires StoreOk(s) && Aligned(policy, floor, s) && Fair(policy, floor, e)
    ensures Aligned(policy, floor, Step(s, e))
  {
    match e
    case Changes(c, _) =>
      assert UnheardRows(s.world, c) == {} && !Loud(s.world, c);
    case Begins(_) =>
    case Writes(w) =>
      if Writable(s, w) {
        WriteAligned(policy, floor, s, w);
      }
  }

  /** In every run of such events, in whatever order and by however many calls, nothing slips. */
  lemma {:induction false} RunAligned(policy: string, floor: int, events: seq<Event>)
    requires forall e :: e in events ==> Fair(policy, floor, e)
    ensures StoreOk(Run(First(floor), events)) && Aligned(policy, floor, Run(First(floor), events))
  {
    if events != [] {
      var front, last := events[..|events| - 1], events[|events| - 1];
      RunAligned(policy, floor, front);
      StepOk(Run(First(floor), front), last);
      StepAligned(policy, floor, Run(First(floor), front), last);
    }
  }

  /** And every certificate there has ever been names only messages that have their chunk, if they should have one. */
  lemma CertificatesTrue(policy: string, floor: int, events: seq<Event>, c: Coverage)
    requires forall e :: e in events ==> Fair(policy, floor, e)
    requires Some(c) in Run(First(floor), events).past.covers
    ensures TrulyCovers(Run(First(floor), events).world, c)
  {
    RunAligned(policy, floor, events);
    var s := Run(First(floor), events);
    assert CoverAligned(policy, floor, s.coverage, Some(c)) && Covers(s.world, s.coverage);
    forall id | c.first <= id <= c.through ensures !Needs(s.world, c.policy, id) {
      assert !Wanted(s.world, c.policy, id);
    }
  }
}
