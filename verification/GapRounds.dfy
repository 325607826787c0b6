/** Gap scan calls that nothing disturbs come to an end, however small their budgets, as long as each exceeds what the
    calls before left to revisit. */
module GapRounds {
  import opened Wrappers
  import opened GapCoverage
  import opened GapPages
  import opened GapProof
  import opened GapStore
  import opened GapProgress
  import opened GapScan

  /** What a call of the upper band would take up. */
  function Taken(s: Store, policy: string): Scan {
    if s.upper.Some? then Of(s.upper.value.scan, policy) else Empty
  }

  /** How far the next call of the upper band has to read at most. */
  function Distance(s: Store, policy: string, high: int): int {
    Max(0, StartsAt(Taken(s, policy), high) - UpperLow(s.floor, s.coverage, policy))
  }

  /** Messages arrive, are deleted and get their chunks. */
  predicate Gentle(c: Change) {
    c.edits == map[] && c.unpublish == {}
  }

  lemma GentleKeeps(s: Store, c: Change)
    requires StoreOk(s) && Gentle(c)
    ensures var t := Step(s, Changes(c, s.floor));
      && t == s.(world := t.world, past := t.past) && s.world.nextId <= t.world.nextId
  {
    StepOk(s, Changes(c, s.floor));
    assert !Loud(s.world, c);
  }

  method Meanwhile(identity: Identity, c: Change)
    requires identity.Valid() && Gentle(c) && identity.allowed(Changes(c, identity.store.floor))
    modifies identity
    ensures identity.Valid() && identity.schedule == []
    ensures identity.store == old(identity.store).(world := identity.store.world, past := identity.store.past)
    ensures old(identity.store).world.nextId <= identity.store.world.nextId
  {
    var e := Changes(c, identity.store.floor);
    GentleKeeps(identity.store, c);
    identity.schedule := [Moment([e], false)];
    RunOn(identity.store, [], e);
    assert [] + [e] == [e];
    var _ := identity.Turn();
  }

  /** The upper band is certified, joined to the certificate before, and all that is wanted in it was handed out. */
  ghost predicate Certified(s: Store, t: Store, policy: string, high: int, handed: seq<int>) {
    var low := UpperLow(s.floor, s.coverage, policy);
    && t.coverage == Some(CoverageValue(s.coverage, low, Through(high, handed), policy))
    && WantedWithin(t.world, policy, low, high, ToSet(handed))
  }

  /** One call over the upper band, with a budget of `spare` rows more than the candidates it finds saved, certifies the
      band or leaves less of it to read. */
  method Round(identity: Identity, policy: string, high: int, spare: nat, pageSize: nat, metadataOnly: bool)
    returns (handed: seq<int>, done: bool)
    requires identity.Valid() && 0 < spare && 0 < pageSize
    requires forall e :: Own(policy, e) ==> identity.allowed(e)
    requires UpperLow(identity.store.floor, identity.store.coverage, policy) <= high < identity.store.world.nextId
    requires !Taken(identity.store, policy).Done?
    modifies identity
    ensures identity.Valid() && SameRows(old(identity.store), identity.store)
    ensures if done then Certified(old(identity.store), identity.store, policy, high, handed) else
              && identity.store.coverage == old(identity.store.coverage) && !Taken(identity.store, policy).Done?
              && Distance(identity.store, policy, high) < old(Distance(identity.store, policy, high))
  {
    ghost var taken := Taken(identity.store, policy);
    var low := UpperLow(identity.store.floor, identity.store.coverage, policy);
    identity.schedule := [];
    identity.OpenUpper(policy, identity.store.floor, identity.store.coverage);
    assert identity.state.read.taken == taken;
    var waiting := Waiting(identity.state.read.taken, low, high);
    handed := identity.Scan(policy, low, high, |waiting| + spare, pageSize, metadataOnly);
    done := BandScan(identity.At()).Done?;
  }

  /** Call after call over the upper band, each with a budget of `spare` rows more than the candidates it finds saved,
      and between them messages arrive, are deleted and get their chunks: every call before the last saves a walk that
      stands lower than the one before it, so after at most one call more than there are ids left to read the band is
      certified, and that call has handed out every row in it that is still wanted. */
  method Rounds(identity: Identity, policy: string, high: int, spare: nat, pageSize: nat, metadataOnly: bool,
                between: seq<Change>)
    returns (handed: seq<int>, calls: nat)
    requires identity.Valid() && 0 < spare && 0 < pageSize
    requires forall e :: Own(policy, e) ==> identity.allowed(e)
    requires forall c :: c in between ==> Gentle(c) && identity.allowed(Changes(c, identity.store.floor))
    requires UpperLow(identity.store.floor, identity.store.coverage, policy) <= high < identity.store.world.nextId
    requires !Taken(identity.store, policy).Done?
    modifies identity
    ensures identity.Valid() && 0 < calls <= old(Distance(identity.store, policy, high)) + 1
    ensures Certified(old(identity.store), identity.store, policy, high, handed)
  {
    handed, calls := [], 0;
    var done := false;
    while !done
      invariant identity.Valid() && identity.store.floor == old(identity.store).floor
      invariant if done then Certified(old(identity.store), identity.store, policy, high, handed) else
                  && identity.store.coverage == old(identity.store).coverage
                  && high < identity.store.world.nextId && !Taken(identity.store, policy).Done?
                  && calls + Distance(identity.store, policy, high) <= old(Distance(identity.store, policy, high))
      invariant done ==> 0 < calls <= old(Distance(identity.store, policy, high)) + 1
      decreases !done, Distance(identity.store, policy, high)
    {
      handed, done := Round(identity, policy, high, spare, pageSize, metadataOnly);
      if !done && calls < |between| {
        Meanwhile(identity, between[calls]);
      }
      calls := calls + 1;
    }
  }
}
