/** Any number of gap scan passes over one identity. */
module GapCampaign {
  import opened Wrappers
  import opened GapCoverage
  import opened GapFilter
  import opened GapProof
  import opened GapStore
  import opened GapSlips
  import opened GapSteady
  import opened GapProgress
  import opened GapScan

  /** What one automatic pass is given: its upper bound, which band it takes first, and what the others do meanwhile. */
  datatype Call = Call(policy: string, high: int, lowFirst: bool, limit: nat, pageSize: nat, metadataOnly: bool,
                       schedule: seq<Moment>)

  /** A certificate and the epoch of the record it was made with. */
  datatype Made = Made(coverage: Coverage, epoch: nat)

  /** The calls, and all that the others do meanwhile, are allowed. */
  ghost predicate Allowed(calls: seq<Call>, allowed: Event -> bool) {
    && (forall call, e :: call in calls && Own(call.policy, e) ==> allowed(e))
    && (forall call, m, e :: call in calls && m in call.schedule && e in m.events ==> allowed(e))
  }

  /** The event has one of the three causes for the row: an edit that no trigger hears, a walk taken up below the call's
      low end that was holding the row or lies below it, a finished record taken up that begins above the row. */
  ghost predicate Causes(s: Store, e: Event, row: (string, int)) {
    match e
    case Changes(c, _) =>
      && row.0 == "heads" && row.1 in c.edits && row.1 in s.world.messages
      && Unheard(s.world.messages[row.1], c.edits[row.1])
    case Begins(_) => false
    case Writes(w) =>
      && w.scan != Empty && row.0 == w.scan.policy && Wanted(s.world, row.0, row.1)
      && var end, taken := End(w.low, w.read, row.0), w.read.taken;
         || (taken.Walk? && w.scan.Walk? && taken.below < end && row.1 < end
           && (row.1 in taken.pending || taken.high < row.1))
         || (taken.Done? && !w.low && end <= row.1 < taken.from)
  }

  /** No row within the certificate that an event since the triggers last fired let slip still needs its chunk. */
  ghost predicate NothingLost(floor: int, events: seq<Event>, c: Coverage) {
    forall i: nat, id :: SlipsAt(First(floor), events, i, (c.policy, id)) && c.first <= id <= c.through ==>
      !Needs(Run(First(floor), events).world, c.policy, id)
  }

  /** No event since the triggers last fired is a cause for a row within the certificate. */
  ghost predicate NoCause(floor: int, events: seq<Event>, c: Coverage) {
    forall i: nat, id :: i < |events| && c.first <= id <= c.through && NoReset(First(floor), events, i + 1) ==>
      !Causes(Run(First(floor), events[..i]), events[i], (c.policy, id))
  }

  /** While its epoch lasts, a certificate covers all it names but for what slips. */
  ghost predicate Stands(s: Store, m: Made) {
    && m.epoch <= s.issued && m.coverage.through < s.world.nextId && Some(m.coverage) in s.past.covers
    && (s.upper.Some? && s.upper.value.epoch == m.epoch ==>
          NoneWanted(s.world, m.coverage.policy, m.coverage.first, m.coverage.through))
  }

  predicate Noted(s: Store, made: seq<Made>) {
    s.coverage.Some? && s.upper.Some? ==> Made(s.coverage.value, s.upper.value.epoch) in made
  }

  /** Any number of passes over both bands, each cut anywhere, among publications, arrivals, edits, deletions, removed
      chunks, a cursor that moves either way and other writers of the records: every certificate of the epoch on record
      is true exactly when none of its rows that slipped still needs its chunk, and whenever nothing happened since the
      triggers last fired that can make one of them slip. */
  method Campaign(floor: int, policy: string, calls: seq<Call>, ghost allowed: Event -> bool)
    returns (identity: Identity, made: seq<Made>)
    requires Allowed(calls, allowed) && (forall e :: Own(policy, e) ==> allowed(e))
    ensures identity.Valid() && identity.start == floor && identity.allowed == allowed
    ensures forall m :: m in made ==> Some(m.coverage) in identity.store.past.covers
    ensures forall m :: m in made && identity.store.upper.Some? && identity.store.upper.value.epoch == m.epoch ==>
      (TrulyCovers(identity.store.world, m.coverage) <==> NothingLost(floor, identity.history, m.coverage))
    ensures identity.store.coverage.Some? ==>
      (TrulyCovers(identity.store.world, identity.store.coverage.value) <==>
         NothingLost(floor, identity.history, identity.store.coverage.value))
    ensures identity.store.coverage.Some? && NoCause(floor, identity.history, identity.store.coverage.value) ==>
      TrulyCovers(identity.store.world, identity.store.coverage.value)
  {
    identity := new Identity(floor, policy, allowed);
    made := [];
    for i := 0 to |calls|
      invariant identity.Valid() && fresh(identity) && identity.start == floor && identity.allowed == allowed
      invariant forall m :: m in made ==> Stands(identity.store, m)
      invariant Noted(identity.store, made)
    {
      var call := calls[i];
      ghost var before := identity.store;
      identity.schedule := call.schedule;
      var _ := identity.Turn();
      ghost var turned := identity.store;
      if identity.store.floor <= call.high < identity.store.world.nextId && 0 < call.limit && 0 < call.pageSize {
        var _ := identity.Pass(call.policy, call.high, call.lowFirst, call.limit, call.pageSize, call.metadataOnly);
        EpochOn(before, turned, identity.store);
      }
      forall m | m in made ensures Stands(identity.store, m) {
        StillStands(before, identity.store, m);
      }
      if identity.store.coverage.Some? && identity.store.upper.Some? {
        made := made + [Made(identity.store.coverage.value, identity.store.upper.value.epoch)];
      }
    }
    forall m | m in made && identity.store.upper.Some? && identity.store.upper.value.epoch == m.epoch
      ensures TrulyCovers(identity.store.world, m.coverage) <==> NothingLost(floor, identity.history, m.coverage)
    {
      TrueExactly(floor, identity.history, m.coverage);
    }
    if identity.store.coverage.Some? {
      TrueExactly(floor, identity.history, identity.store.coverage.value);
      if NoCause(floor, identity.history, identity.store.coverage.value) {
        TrueWithoutCause(floor, identity.history, identity.store.coverage.value);
      }
    }
  }

  lemma StillStands(s: Store, t: Store, m: Made)
    requires EpochKept(s, t) && Stands(s, m)
    ensures Stands(t, m)
  {
    if t.upper.Some? && t.upper.value.epoch == m.epoch {
      WithinSurvives(s.world, t.world, m.coverage.policy, m.coverage.first, m.coverage.through, {});
    }
  }

  /** A certificate that covers all but what slipped is true exactly when nothing was lost. */
  lemma TrueExactly(floor: int, events: seq<Event>, c: Coverage)
    requires NoneWanted(Run(First(floor), events).world, c.policy, c.first, c.through)
    ensures TrulyCovers(Run(First(floor), events).world, c) <==> NothingLost(floor, events, c)
  {
    var w := Run(First(floor), events).world;
    forall id ensures (c.policy, id) in w.slipped <==> exists i: nat :: SlipsAt(First(floor), events, i, (c.policy, id))
    {
      SlippedExactly(floor, events, (c.policy, id));
    }
    CoversExactly(w, c);
  }

  /** Whatever slips has one of the causes. */
  lemma SlipHasCause(s: Store, e: Event, row: (string, int))
    requires row in Slips(s, e)
    ensures Causes(s, e, row)
  {
  }

  /** Without a cause, a certificate is true. */
  lemma TrueWithoutCause(floor: int, events: seq<Event>, c: Coverage)
    requires NoneWanted(Run(First(floor), events).world, c.policy, c.first, c.through) && NoCause(floor, events, c)
    ensures TrulyCovers(Run(First(floor), events).world, c)
  {
    forall i: nat, id | i < |events| && c.first <= id <= c.through
      ensures !SlipsAt(First(floor), events, i, (c.policy, id))
    {
      if (c.policy, id) in Slips(Run(First(floor), events[..i]), events[i]) {
        SlipHasCause(Run(First(floor), events[..i]), events[i], (c.policy, id));
      }
    }
    TrueExactly(floor, events, c);
  }

  /** Any number of passes under one policy, each cut anywhere, while the cursor's low end stays, messages arrive, are
      published or deleted, and other calls of the policy write the records: every certificate there has ever been
      names only messages that have their chunk, if they should have one. */
  method SteadyCampaign(floor: int, policy: string, calls: seq<Call>) returns (identity: Identity, made: seq<Made>)
    requires forall call :: call in calls ==> call.policy == policy
    requires forall call, m, e :: call in calls && m in call.schedule && e in m.events ==> Fair(policy, floor, e)
    ensures identity.Valid() && identity.store.world.slipped == {}
    ensures forall c :: Some(c) in identity.store.past.covers ==> TrulyCovers(identity.store.world, c)
    ensures forall m :: m in made ==> TrulyCovers(identity.store.world, m.coverage)
    ensures identity.store.coverage.Some? ==> TrulyCovers(identity.store.world, identity.store.coverage.value)
  {
    ghost var allowed := (e: Event) => Fair(policy, floor, e);
    identity, made := Campaign(floor, policy, calls, allowed);
    RunAligned(policy, floor, identity.history);
    forall c | Some(c) in identity.store.past.covers ensures TrulyCovers(identity.store.world, c) {
      CertificatesTrue(policy, floor, identity.history, c);
    }
  }
}
