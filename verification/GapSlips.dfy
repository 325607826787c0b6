/**
  Which rows slip past the gap scan's records, and when none does: a row has a cause, an edit that no trigger hears or a
  write that takes up a record reaching below or beginning above the call's low end.
 */
module GapSlips {
  import opened Wrappers
  import opened GapCoverage
  import opened GapFilter
  import opened GapProof
  import opened GapStore

  /** The rows one event lets slip. */
  function Slips(s: Store, e: Event): set<(string, int)> {
    match e
    case Changes(c, _) => if Loud(s.world, c) then {} else UnheardRows(s.world, c)
    case Begins(_) => {}
    case Writes(w) => if Writable(s, w) then SlipRows(s.world, w) else {}
  }

  /** The triggers drop the records, and with them every claim that a row slipped past. */
  predicate Resets(s: Store, e: Event) {
    e.Changes? && Loud(s.world, e.change)
  }

  /** No trigger fires from event `k` on. */
  predicate NoReset(s: Store, events: seq<Event>, k: nat) {
    |events| <= k
      || (NoReset(s, events[..|events| - 1], k) && !Resets(Run(s, events[..|events| - 1]), events[|events| - 1]))
  }

  /** Event `i` lets the row slip, and no trigger fires after it. */
  predicate SlipsAt(s: Store, events: seq<Event>, i: nat, row: (string, int)) {
    i < |events| && row in Slips(Run(s, events[..i]), events[i]) && NoReset(s, events, i + 1)
  }

  lemma StepSlips(s: Store, e: Event, row: (string, int))
    ensures row in Step(s, e).world.slipped <==> row in Slips(s, e) || (row in s.world.slipped && !Resets(s, e))
  {
  }

  lemma {:induction false} SlipIndex(s: Store, events: seq<Event>, row: (string, int)) returns (i: nat)
    requires row !in s.world.slipped && row in Run(s, events).world.slipped
    ensures SlipsAt(s, events, i, row)
  {
    var front, last := events[..|events| - 1], events[|events| - 1];
    StepSlips(Run(s, front), last, row);
    if row in Slips(Run(s, front), last) {
      i := |front|;
    } else {
      i := SlipIndex(s, front, row);
      assert events[..i] == front[..i] && events[i] == front[i];
    }
  }

  lemma {:induction false} SlipStays(s: Store, events: seq<Event>, i: nat, row: (string, int))
    requires SlipsAt(s, events, i, row)
    ensures row in Run(s, events).world.slipped
  {
    var front, last := events[..|events| - 1], events[|events| - 1];
    StepSlips(Run(s, front), last, row);
    if i < |front| {
      assert events[..i] == front[..i] && events[i] == front[i];
      SlipStays(s, front, i, row);
    } else {
      assert events[..i] == front;
    }
  }

  /** A row has slipped exactly when some event let it slip and no trigger fired since. */
  lemma SlippedExactly(floor: int, events: seq<Event>, row: (string, int))
    ensures row in Run(First(floor), events).world.slipped <==> exists i: nat :: SlipsAt(First(floor), events, i, row)
  {
    if row in Run(First(floor), events).world.slipped {
      var i := SlipIndex(First(floor), events, row);
    }
    if i: nat :| SlipsAt(First(floor), events, i, row) {
      SlipStays(First(floor), events, i, row);
    }
  }

  // ---- writes ------------------------------------------------------------

  /** What a call took up reaches no lower than its low end and, finished, begins no higher; a walk that does reach
      lower holds no row there that may be wanted, and no row there came after it. */
  predicate Spares(low: bool, r: Read, policy: string) {
    var end, taken := End(low, r, policy), r.taken;
    && (taken.Walk? ==>
          || end <= taken.below
          || (end <= taken.high + 1 && forall id :: id in taken.pending && id < taken.ceiling ==> end <= id))
    && (!low && taken.Done? ==> taken.from <= end)
  }

  /** Then a write of the call lets nothing slip. */
  lemma SparedSlipsNone(s: Store, w: Write)
    requires StoreOk(s) && Writable(s, w) && Spares(w.low, w.read, w.scan.policy)
    ensures SlipRows(s.world, w) == {}
  {
    var taken := w.read.taken;
    assert Proves(s.world, taken);
    forall id | taken.Walk? && taken.ceiling <= id <= taken.high ensures !Wanted(s.world, taken.policy, id) {
    }
  }

  /** A store that holds one message, without a chunk, and what the call has read. */
  function Holding(id: int, next: int, r: Read): Store {
    Store(World(map[id := Plain], next, {}, {}), r.floor, Some(Record(r.taken, 0, 0)), None, None, 0,
          Past({r.floor}, {None, r.coverage}, {Empty, r.taken}, {None}))
  }

  /** A write over a finished record that begins above the call's low end. */
  lemma EndSlips(next: int, r: Read, policy: string) returns (s: Store, w: Write)
    requires r.taken.Done? && r.taken.policy == policy && Shaped(World(map[], next, {}, {}), r.taken)
    requires End(false, r, policy) < r.taken.from
    ensures StoreOk(s) && !w.low && w.read == r && Writable(s, w) && w.scan.policy == policy
      && SlipRows(s.world, w) != {}
  {
    var end, high := End(false, r, policy), r.taken.high;
    s, w := Holding(end, next, r), Write.Finish(false, Done(policy, high, {}, end), r, None, high);
    PlainListed(policy);
    assert Wanted(s.world, policy, end);
    assert (policy, end) in SlipRows(s.world, w);
    assert forall id :: id != end ==> !Wanted(Slipped(s.world, w), policy, id);
  }

  /** A write that follows on a walk holding a row below the call's low end, or overtaken by one. */
  lemma WalkSlips(next: int, low: bool, r: Read, policy: string, id: int) returns (s: Store, w: Write)
    requires r.taken.Walk? && r.taken.policy == policy && Shaped(World(map[], next, {}, {}), r.taken)
    requires low ==> r.coverage.Some? && r.coverage.value.policy == policy && r.floor < r.coverage.value.first
    requires r.taken.below <= id < End(low, r, policy) <= next
    requires (id in r.taken.pending && id < r.taken.ceiling) || r.taken.high < id
    ensures StoreOk(s) && w.low == low && w.read == r && Writable(s, w) && w.scan.policy == policy
    ensures SlipRows(s.world, w) != {}
  {
    s, w := Holding(id, next, r), Write.Save(low, Walk(policy, next - 1, next, r.taken.below, {}), r);
    PlainListed(policy);
    assert Wanted(s.world, policy, id);
    assert (policy, id) in SlipRows(s.world, w);
    assert forall k :: k != id ==> !Wanted(Slipped(s.world, w), policy, k);
  }

  /** With what a call has read, no write whatever lets a row slip exactly when the record it took up spares them. */
  lemma SparesExactly(s: Store, low: bool, r: Read, policy: string)
    requires StoreOk(s) && HasRead(s, low, r, policy)
    ensures Spares(low, r, policy) <==>
      forall t: Store, w: Write ::
        StoreOk(t) && Writable(t, w) && w.low == low && w.read == r && w.scan.policy == policy ==>
          SlipRows(t.world, w) == {}
  {
    forall t: Store, w: Write |
      Spares(low, r, policy) && StoreOk(t) && Writable(t, w) && w.low == low && w.read == r && w.scan.policy == policy
      ensures SlipRows(t.world, w) == {}
    {
      SparedSlipsNone(t, w);
    }
    if !Spares(low, r, policy) {
      var end, taken := End(low, r, policy), r.taken;
      assert Proves(s.world, taken);
      if taken.Done? {
        var t, w := EndSlips(s.world.nextId, r, policy);
      } else {
        var id: int;
        if end > taken.high + 1 {
          id := taken.high + 1;
        } else {
          id :| id in taken.pending && id < taken.ceiling && id < end;
        }
        var t, w := WalkSlips(Max(s.world.nextId, end), low, r, policy, id);
      }
    }
  }

  /** A walk that follows on a true one is itself true exactly when it forgets no row that is still wanted: none that
      the other held below the call's low end, and none that came after the other below it. */
  lemma WalkExactly(v: World, w: Write)
    requires w.Save? && w.scan.Walk? && Proves(v, w.read.taken)
    requires w.read.taken.Empty? || w.read.taken.policy == w.scan.policy
    requires FollowsOn(w.scan, w.read.taken, End(w.low, w.read, w.scan.policy)) && WorldValid(v)
    requires Owes(v, w.scan, End(w.low, w.read, w.scan.policy))
    ensures Proves(v, w.scan) <==>
      forall id :: w.read.taken.Walk? && Forgets(w.scan, w.read.taken, End(w.low, w.read, w.scan.policy), id) ==>
        !Wanted(v, w.scan.policy, id)
    ensures Proves(Slipped(v, w), w.scan)
  {
    var s, taken, end := w.scan, w.read.taken, End(w.low, w.read, w.scan.policy);
    forall id | s.below <= id < end && Wanted(v, s.policy, id)
      ensures taken.Walk? && Forgets(s, taken, end, id) && (s.policy, id) in SlipRows(v, w)
    {
    }
    var u := Slipped(v, w);
    SlippedShrinks(v, SlipRows(v, w));
    forall id | s.ceiling <= id <= s.high ensures !Wanted(u, s.policy, id) {
      assert !Wanted(v, s.policy, id);
    }
    forall id | s.below <= id <= s.high && Wanted(u, s.policy, id) ensures id in s.pending {
      assert Wanted(v, s.policy, id);
    }
  }

  /** Every call that writes is of the policy. */
  predicate OnePolicy(policy: string, e: Event) {
    e.Writes? && !e.write.scan.Empty? ==> e.write.scan.policy == policy
  }

  /** A finished record begins no higher than where the certificates that stood with it end. */
  ghost predicate Tied(policy: string, s: Store) {
    forall c :: c in s.past.stood ==>
      && (c.Some? ==> c.value.policy == policy)
      && (s.upper.Some? && s.upper.value.scan.Done? ==> c.Some? && s.upper.value.scan.from <= c.value.through + 1)
  }

  lemma TiedKept(policy: string, s: Store, e: Event)
    requires StoreOk(s) && Tied(policy, s) && OnePolicy(policy, e)
    ensures Tied(policy, Step(s, e))
  {
    if e.Writes? && Writable(s, e.write) && e.write.Finish? {
      assert Covers(s.world, e.write.before);
    }
  }

  lemma {:induction false} RunTied(policy: string, floor: int, events: seq<Event>)
    requires forall e :: e in events ==> OnePolicy(policy, e)
    ensures StoreOk(Run(First(floor), events)) && Tied(policy, Run(First(floor), events))
  {
    if events != [] {
      var front, last := events[..|events| - 1], events[|events| - 1];
      RunTied(policy, floor, front);
      StepOk(Run(First(floor), front), last);
      TiedKept(policy, Run(First(floor), front), last);
    }
  }

  /** Under one policy, however the cursor moves and whatever changes: a call that reads the certificate again after a
      finished record, and finds the one it read before, takes up nothing that can let a row slip. */
  lemma ReadAgain(policy: string, floor: int, events: seq<Event>, r: Read)
    requires forall e :: e in events ==> OnePolicy(policy, e)
    requires var s := Run(First(floor), events);
      s.upper.Some? && r.taken == s.upper.value.scan && r.taken.Done? && r.coverage == s.coverage
    ensures Spares(false, r, policy)
  {
    RunTied(policy, floor, events);
  }
}
