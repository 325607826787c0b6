/** Two rows that calls of the gap scan lose, by the two ways in which a write lets a row slip. */
module GapLoss {
  import opened Wrappers
  import opened GapCoverage
  import opened GapFilter
  import opened GapPages
  import opened GapProof
  import opened GapStore
  import opened GapProgress
  import opened GapScan

  const Policy: string := "conversational"

  ghost predicate Free(identity: Identity) {
    forall e :: identity.allowed(e)
  }

  function Turns(count: nat): seq<Message> {
    seq(count, _ => Plain)
  }

  /** Messages arrive, chunks are published, and the oldest row embedded or in flight is another one. */
  function Moves(publish: set<int>, arrivals: seq<Message>, floor: int): Event {
    Changes(Change(publish, {}, map[], {}, arrivals), floor)
  }

  lemma MovesOnly(s: Store, publish: set<int>, arrivals: seq<Message>, floor: int)
    ensures var t := Step(s, Moves(publish, arrivals, floor));
      t == s.(world := t.world, floor := floor, past := t.past)
      && t.world == Arrive(s.world.(published := s.world.published + publish), arrivals).(slipped := s.world.slipped)
  {
    var c := Moves(publish, arrivals, floor).change;
    assert Edited(s.world, c) == s.world.(published := s.world.published + publish);
    assert !Loud(s.world, c) && UnheardRows(s.world, c) == {};
  }

  method MoveTo(identity: Identity, publish: set<int>, arrivals: seq<Message>, floor: int)
    requires identity.Valid() && Free(identity)
    modifies identity
    ensures identity.Valid() && identity.schedule == []
    ensures identity.store == Step(old(identity.store), Moves(publish, arrivals, floor))
  {
    var move := Moves(publish, arrivals, floor);
    identity.schedule := [Moment([move], false)];
    RunOn(identity.store, [], move);
    assert [] + [move] == [move];
    var _ := identity.Turn();
  }

  // ---- a walk that forgets a row -----------------------------------------

  const Three: map<int, Message> := map[1 := Plain, 2 := Plain, 3 := Plain]

  lemma ThreeArrive(w: World)
    requires w.messages == map[] && w.nextId == 1
    ensures Arrive(w, Turns(3)) == w.(messages := Three, nextId := 4)
  {
    var w1, w2 :=
      w.(messages := map[1 := Plain], nextId := 2), w.(messages := map[1 := Plain, 2 := Plain], nextId := 3);
    assert Turns(3)[1..] == Turns(2) && Turns(2)[1..] == Turns(1) && Turns(1)[1..] == [];
    assert Arrive(w, Turns(3)) == Arrive(w1, Turns(2)) == Arrive(w2, Turns(1));
  }

  /** A call has read rows 3 and 2, from the top, and was cut before it went on. */
  const Saved: Scan := Walk(Policy, 3, 4, 2, {2, 3})

  function Saves(): seq<Event> {
    [Begins(false), Writes(Write.Save(false, Saved, Read(1, None, Empty)))]
  }

  /** All three rows are there, row 1 is in flight and the walk is saved. */
  ghost predicate Started(s: Store) {
    s.world == World(Three, 4, {}, {}) && s.upper.Some? && s.upper.value.scan == Saved && s.coverage.None?
  }

  lemma SavesSo(s: Store)
    requires StoreOk(s) && s.world == World(Three, 4, {}, {}) && s.upper.None? && s.coverage.None? && 1 in s.past.floors
    ensures Started(Run(s, Saves()))
  {
    var e := Saves();
    var s1 := Begun(s, false);
    StepOk(s, e[0]);
    assert SlipRows(s1.world, e[1].write) == {} && Slipped(s1.world, e[1].write) == s1.world;
    WriteFits(s1, e[1].write);
    assert e == ([] + [e[0]]) + [e[1]];
    RunOn(s, [], e[0]);
    RunOn(s, [] + [e[0]], e[1]);
  }

  method Prepared() returns (identity: Identity)
    ensures fresh(identity) && identity.Valid() && Free(identity) && Started(identity.store)
  {
    identity := new Identity(1, Policy, _ => true);
    MovesOnly(identity.store, {}, Turns(3), 1);
    ThreeArrive(First(1).world);
    MoveTo(identity, {}, Turns(3), 1);
    SavesSo(identity.store);
    identity.schedule := [Moment(Saves(), false)];
    var _ := identity.Turn();
  }

  /** The walk on record stands at 2 or below and holds neither row 1 nor row 2. */
  ghost predicate Forgot(s: Store) {
    && s.upper.Some? && s.upper.value.scan.Walk?
    && var w := s.upper.value.scan;
       w.policy == Policy && w.high == 3 && w.below <= 2 && (forall id :: id in w.pending ==> 3 <= id)
  }

  /** A call whose low end is 3 takes the walk up, forgets row 2, and is cut at row 3. */
  method CutCall(identity: Identity)
    requires identity.Valid() && Free(identity) && Started(identity.store) && identity.store.floor == 3
    modifies identity
    ensures identity.Valid() && Forgot(identity.store)
    ensures identity.store.coverage.None? && SameRows(old(identity.store), identity.store)
  {
    assert GapRanges(Some(Range(3, 3)), CHUNK_POLICY_REVISION, Policy, None) == [Range(3, 3)];
    identity.OpenUpper(Policy, 3, None);
    identity.schedule := [Moment([], true)];
    assert identity.state.read.taken == Saved && 3 in Saved.pending;
    var _ := identity.Scan(Policy, 3, 3, 5, 5, false);
  }

  /** A call whose low end is 1, and that nothing disturbs, certifies row 2. */
  method NextCall(identity: Identity)
    requires identity.Valid() && Free(identity) && identity.store.floor == 1 && identity.store.coverage.None?
    requires identity.store.world.messages == Three && identity.store.world.published == {1}
    requires identity.store.world.nextId == 4 && Forgot(identity.store)
    modifies identity
    ensures identity.Valid() && SameRows(old(identity.store), identity.store) && identity.store.coverage.Some?
    ensures var c := identity.store.coverage.value; c.policy == Policy && c.first <= 2 <= c.through
  {
    assert GapRanges(Some(Range(1, 3)), CHUNK_POLICY_REVISION, Policy, None) == [Range(1, 3)];
    identity.OpenUpper(Policy, 1, None);
    identity.schedule := [];
    assert identity.state.read.taken == identity.store.upper.value.scan;
    var handed := identity.Scan(Policy, 1, 3, 5, 5, false);
    forall id | id in handed ensures 3 <= id {
      assert id in old(identity.store).upper.value.scan.pending || id < 2;
    }
    OldestHanded(handed);
  }

  /** Two calls, the first while the low end is 3, because row 1 was given back and row 3 is in flight, the second
      undisturbed once row 1 was taken again and has its chunk: the certificate names row 2, which needs one. */
  method LoseRow() returns (identity: Identity)
    ensures identity.Valid() && identity.store.coverage.Some?
    ensures var c := identity.store.coverage.value;
      c.policy == Policy && c.first <= 2 <= c.through && Needs(identity.store.world, Policy, 2)
      && !TrulyCovers(identity.store.world, c)
  {
    identity := Prepared();
    MovesOnly(identity.store, {}, [], 3);
    MoveTo(identity, {}, [], 3);
    CutCall(identity);
    MovesOnly(identity.store, {1}, [], 1);
    MoveTo(identity, {1}, [], 1);
    NextCall(identity);
    PlainListed(Policy);
    assert Needs(identity.store.world, Policy, 2);
  }

  // ---- a part that nobody reads ------------------------------------------

  const Two: map<int, Message> := map[1 := Plain, 2 := Plain]

  lemma TwoArrive(w: World)
    requires w.messages == map[] && w.nextId == 1
    ensures Arrive(w, Turns(2)) == w.(messages := Two, nextId := 3)
  {
    assert Turns(2)[1..] == Turns(1) && Turns(1)[1..] == [];
    assert Arrive(w, Turns(2)) == Arrive(w.(messages := map[1 := Plain], nextId := 2), Turns(1));
  }

  /** Row 2 has its chunk, row 1 has none but is in flight. */
  ghost predicate RowTwoDone(s: Store) {
    s.world == World(Two, 3, {2}, {}) && s.floor == 1 && s.coverage.None?
  }

  /** Another call, which read the low end when it was still 2, exhausts its band and certifies it. */
  function Exhausts(): seq<Event> {
    [Begins(false), Writes(Finish(false, Done(Policy, 2, {}, 2), Read(2, None, Empty), None, 2))]
  }

  lemma OtherFinishes(s: Store)
    requires StoreOk(s) && RowTwoDone(s) && s.upper.None? && 2 in s.past.floors
    ensures var t := Run(s, Exhausts());
      t.world == s.world && t.upper.Some? && t.upper.value.scan == Done(Policy, 2, {}, 2)
      && t.coverage == Some(Coverage(2, 2, Policy)) && s.past.floors <= t.past.floors && s.past.covers <= t.past.covers
  {
    var e := Exhausts();
    var s1 := Begun(s, false);
    StepOk(s, e[0]);
    assert SlipRows(s1.world, e[1].write) == {} && Slipped(s1.world, e[1].write) == s1.world;
    WriteFits(s1, e[1].write);
    assert e == ([] + [e[0]]) + [e[1]];
    RunOn(s, [], e[0]);
    RunOn(s, [] + [e[0]], e[1]);
  }

  /** Both rows have arrived and the low end has come back from 2 to 1. */
  method Returned() returns (identity: Identity)
    ensures fresh(identity) && identity.Valid() && Free(identity) && RowTwoDone(identity.store)
    ensures identity.store.upper.None? && 2 in identity.store.past.floors
  {
    identity := new Identity(1, Policy, _ => true);
    MovesOnly(identity.store, {2}, Turns(2), 2);
    TwoArrive(First(1).world.(published := {} + {2}));
    MoveTo(identity, {2}, Turns(2), 2);
    MovesOnly(identity.store, {}, [], 1);
    MoveTo(identity, {}, [], 1);
  }

  /** The call that read the low end and the certificate before goes on to read the record. */
  method FinishedCall(identity: Identity)
    requires identity.Valid() && Free(identity) && identity.store.world == World(Two, 3, {2}, {})
    requires identity.store.upper.Some? && identity.store.upper.value.scan == Done(Policy, 2, {}, 2)
    requires identity.store.coverage == Some(Coverage(2, 2, Policy))
    requires 1 in identity.store.past.floors && None in identity.store.past.covers
    modifies identity
    ensures identity.Valid() && SameRows(old(identity.store), identity.store)
    ensures identity.store.coverage == Some(Coverage(1, 2, Policy))
  {
    identity.OpenUpper(Policy, 1, None);
    identity.schedule := [];
    assert identity.Finished(1, 2);
    var _ := identity.Scan(Policy, 1, 2, 5, 5, false);
  }

  /** A pass has read that the cursor reaches down to 1 and that there is no certificate; another call exhausts the band
      from 2 up; then the first reads the record, takes the whole band for finished, and certifies row 1. */
  method SkipRow() returns (identity: Identity)
    ensures identity.Valid() && identity.store.coverage.Some?
    ensures var c := identity.store.coverage.value;
      c.policy == Policy && c.first <= 1 <= c.through && Needs(identity.store.world, Policy, 1)
      && !TrulyCovers(identity.store.world, c)
  {
    identity := Returned();
    assert GapRanges(Some(Range(1, 2)), CHUNK_POLICY_REVISION, Policy, identity.store.coverage) == [Range(1, 2)];
    OtherFinishes(identity.store);
    identity.schedule := [Moment(Exhausts(), false)];
    var _ := identity.Turn();
    FinishedCall(identity);
    PlainListed(Policy);
    assert Needs(identity.store.world, Policy, 1);
  }
}
