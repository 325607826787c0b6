/**
  What the gap scan may claim about an identity: which messages still need a chunk, what each saved record proves, why
  a proof outlives changes that no trigger hears, and which rows slip through it.
 */
module GapProof {
  import opened Wrappers
  import opened GapCoverage
  import opened GapFilter

  /** Messages by id, the id the next message gets, and the messages with a published chunk.  `slipped` is history that
      the source does not keep: the rows, by policy, that got past the records since the triggers last dropped them.
      What the records promise, they promise of all other rows. */
  datatype World = World(messages: map<int, Message>, nextId: int, published: set<int>, slipped: set<(string, int)>)

  /** The saved progress of one identity.  `Ceiling`: nothing is wanted from `ceiling` to `high`.
      `Walk`: moreover everything wanted from `below` up is in `pending`.  `Done`: all that is wanted is in `pending`,
      down to `from`, where its band began; `from` is history, which the stored record does not hold. */
  datatype Scan =
    | Empty
    | Ceiling(policy: string, high: int, ceiling: int)
    | Walk(policy: string, high: int, ceiling: int, below: int, pending: set<int>)
    | Done(policy: string, high: int, pending: set<int>, from: int)

  /** What another process changes in the messages and their chunks between two steps of a scan. */
  datatype Change = Change(publish: set<int>, unpublish: set<int>, edits: map<int, Message>, deleted: set<int>,
                           arrivals: seq<Message>)

  predicate WorldValid(w: World) {
    forall id :: id in w.messages ==> id < w.nextId
  }

  /** The rows the scan's query returns: listed under the policy, no chunk published. */
  predicate Unpublished(w: World, policy: string, id: int) {
    id in w.messages && Listed(policy, w.messages[id]) && id !in w.published
  }

  predicate Chunked(w: World, policy: string, id: int) {
    id in w.messages && Chunkable(policy, w.messages[id])
  }

  /** The message should have a chunk and has none. */
  predicate Needs(w: World, policy: string, id: int) {
    Unpublished(w, policy, id) && Chunked(w, policy, id)
  }

  /** And it has not slipped through: what the records promise to keep in sight. */
  predicate Wanted(w: World, policy: string, id: int) {
    Needs(w, policy, id) && (policy, id) !in w.slipped
  }

  function Arrive(w: World, arrivals: seq<Message>): World
    decreases |arrivals|
  {
    if arrivals == [] then w
    else Arrive(w.(messages := w.messages[w.nextId := arrivals[0]], nextId := w.nextId + 1), arrivals[1..])
  }

  function Edited(w: World, c: Change): World {
    var messages := map id | id in w.messages && id !in c.deleted ::
      if id in c.edits then c.edits[id] else w.messages[id];
    w.(messages := messages, published := w.published - c.unpublish + c.publish)
  }

  /** A trigger on messages fires. */
  predicate EditHeard(w: World, c: Change) {
    exists id :: id in c.edits && id in w.messages && Hears(w.messages[id], c.edits[id])
  }

  /** A trigger on messages or on their chunks fires. */
  predicate Loud(w: World, c: Change) {
    EditHeard(w, c) || exists id :: id in c.unpublish && id in w.published
  }

  /** The rows without a chunk that an edit makes needful and no trigger hears. */
  function UnheardRows(w: World, c: Change): set<(string, int)> {
    set id | id in c.edits && id in w.messages && Unheard(w.messages[id], c.edits[id])
             && id !in c.deleted && id !in w.published && id !in c.publish :: ("heads", id)
  }

  function After(w: World, c: Change): World {
    Arrive(Edited(w, c), c.arrivals).(slipped := if Loud(w, c) then {} else w.slipped + UnheardRows(w, c))
  }

  /** Nothing comes to be wanted below the ids already given out. */
  ghost predicate Shrinks(w: World, v: World) {
    && w.nextId <= v.nextId
    && (forall policy: string, id :: id < w.nextId && Wanted(v, policy, id) ==> Wanted(w, policy, id))
  }

  lemma {:induction false} ArriveKeeps(w: World, arrivals: seq<Message>)
    requires WorldValid(w)
    ensures var v := Arrive(w, arrivals);
      && WorldValid(v) && w.nextId <= v.nextId && v.published == w.published
      && (forall id :: id < w.nextId ==> (id in v.messages <==> id in w.messages))
      && (forall id :: id < w.nextId && id in w.messages ==> v.messages[id] == w.messages[id])
    decreases |arrivals|
  {
    if arrivals != [] {
      ArriveKeeps(w.(messages := w.messages[w.nextId := arrivals[0]], nextId := w.nextId + 1), arrivals[1..]);
    }
  }

  lemma AfterKeeps(w: World, c: Change)
    requires WorldValid(w)
    ensures WorldValid(After(w, c)) && w.nextId <= After(w, c).nextId
    ensures forall policy: string, id :: id < w.nextId ==>
      (Needs(After(w, c), policy, id) <==> Needs(Edited(w, c), policy, id))
  {
    ArriveKeeps(Edited(w, c), c.arrivals);
  }

  /** When no trigger fires, a row comes to need a chunk exactly when its edit is one the triggers cannot hear. */
  lemma NeedsExactly(w: World, c: Change, policy: string, id: int)
    requires WorldValid(w) && !Loud(w, c) && id < w.nextId
    ensures !Needs(w, policy, id) && Needs(After(w, c), policy, id) <==> (policy, id) in UnheardRows(w, c)
  {
    AfterKeeps(w, c);
    if id in w.messages && id in c.edits {
      UnheardExactly(policy, w.messages[id], c.edits[id]);
      assert Needful(policy, w.messages[id]) <==> Listed(policy, w.messages[id]) && Chunkable(policy, w.messages[id]);
      assert Needful(policy, c.edits[id]) <==> Listed(policy, c.edits[id]) && Chunkable(policy, c.edits[id]);
    }
  }

  /** A change that no trigger hears makes nothing wanted, whatever it publishes, edits, deletes or adds. */
  lemma AfterShrinks(w: World, c: Change)
    requires WorldValid(w)
    ensures WorldValid(After(w, c)) && w.nextId <= After(w, c).nextId
    ensures !Loud(w, c) ==> Shrinks(w, After(w, c))
  {
    AfterKeeps(w, c);
    if !Loud(w, c) {
      forall policy: string, id | id < w.nextId && Wanted(After(w, c), policy, id) ensures Wanted(w, policy, id) {
        NeedsExactly(w, c, policy, id);
      }
    }
  }

  /** Rows that slip through are no longer wanted; nothing else changes. */
  lemma SlippedShrinks(w: World, rows: set<(string, int)>)
    ensures Shrinks(w, w.(slipped := w.slipped + rows))
  {
  }

  // ---- what a record proves ----------------------------------------------

  predicate NoneWanted(w: World, policy: string, first: int, through: int) {
    forall id :: first <= id <= through ==> !Wanted(w, policy, id)
  }

  /** All that is wanted in the range is among `ids`. */
  predicate WantedWithin(w: World, policy: string, first: int, through: int, ids: set<int>) {
    forall id :: first <= id <= through && Wanted(w, policy, id) ==> id in ids
  }

  /** The shape of a record, whatever it says of the rows. */
  predicate Shaped(w: World, s: Scan) {
    match s
    case Empty => true
    case Ceiling(_, high, c) => high < w.nextId && c <= high + 1
    case Walk(_, high, c, below, pending) =>
      && high < w.nextId && c <= high + 1 && below <= high + 1 && (forall id :: id in pending ==> below <= id <= high)
    case Done(_, high, pending, from) =>
      high < w.nextId && from <= high && (forall id :: id in pending ==> from <= id <= high)
  }

  predicate Proves(w: World, s: Scan) {
    && Shaped(w, s)
    && match s
       case Empty => true
       case Ceiling(p, high, c) => NoneWanted(w, p, c, high)
       case Walk(p, high, c, below, pending) => NoneWanted(w, p, c, high) && WantedWithin(w, p, below, high, pending)
       case Done(p, high, pending, from) => WantedWithin(w, p, from, high, pending)
  }

  /** A stored certificate covers every message it names, but for those that slipped through. */
  predicate Covers(w: World, c: Option<Coverage>) {
    c.Some? ==>
      && WellFormed(c) && c.value.through < w.nextId
      && NoneWanted(w, c.value.policy, c.value.first, c.value.through)
  }

  /** Every message the certificate names that should have a chunk has one. */
  ghost predicate TrulyCovers(w: World, c: Coverage) {
    forall id :: c.first <= id <= c.through ==> !Needs(w, c.policy, id)
  }

  /** A certificate is true exactly when no row that slipped through under its policy still needs a chunk within it. */
  lemma CoversExactly(w: World, c: Coverage)
    requires NoneWanted(w, c.policy, c.first, c.through)
    ensures TrulyCovers(w, c) <==>
      forall id :: (c.policy, id) in w.slipped && c.first <= id <= c.through ==> !Needs(w, c.policy, id)
  {
    if forall id :: (c.policy, id) in w.slipped && c.first <= id <= c.through ==> !Needs(w, c.policy, id) {
      forall id | c.first <= id <= c.through ensures !Needs(w, c.policy, id) {
        assert !Wanted(w, c.policy, id);
      }
    }
  }

  lemma WithinSurvives(w: World, v: World, policy: string, first: int, through: int, ids: set<int>)
    requires Shrinks(w, v) && through < w.nextId && WantedWithin(w, policy, first, through, ids)
    ensures WantedWithin(v, policy, first, through, ids)
  {
  }

  lemma ProofSurvives(w: World, v: World, s: Scan)
    requires Shrinks(w, v) && Proves(w, s)
    ensures Proves(v, s)
  {
  }

  lemma CoverageSurvives(w: World, v: World, c: Option<Coverage>)
    requires Shrinks(w, v) && Covers(w, c)
    ensures Covers(v, c)
  {
  }

  /** Certifying [low, through] on top of any sound certificate gives a sound certificate. */
  lemma CertificateSound(w: World, c: Option<Coverage>, policy: string, low: int, through: int)
    requires Covers(w, c) && low <= through + 1 && through < w.nextId && NoneWanted(w, policy, low, through)
    ensures Covers(w, Some(CoverageValue(c, low, through, policy)))
  {
  }

  /** An edit the trigger does not hear leaves a certificate on record that is no longer true. */
  lemma UnheardBreaks(w: World, c: Coverage, id: int, now: Message)
    requires WorldValid(w) && c.policy == "heads" && c.first <= id <= c.through
    requires id in w.messages && id !in w.published && Unheard(w.messages[id], now)
    ensures var edit := Change({}, {}, map[id := now], {}, []);
      !Loud(w, edit) && !TrulyCovers(After(w, edit), c)
  {
    var edit := Change({}, {}, map[id := now], {}, []);
    assert ("heads", id) in UnheardRows(w, edit);
    NeedsExactly(w, edit, "heads", id);
  }

  // ---- a walk whose position lies below the call's low end ----------------

  /** What a walk proves that was made by a call with this low end: its position may lie below. */
  predicate Owes(w: World, s: Scan, low: int) {
    && s.Walk? && s.high < w.nextId && s.ceiling <= s.high + 1 && s.below <= s.high + 1 && low <= s.high + 1
    && NoneWanted(w, s.policy, s.ceiling, s.high)
    && (forall id :: id in s.pending ==> s.below <= id <= s.high && low <= id)
    && WantedWithin(w, s.policy, Max(low, s.below), s.high, s.pending)
  }

  lemma OwesSurvives(w: World, v: World, s: Scan, low: int)
    requires Shrinks(w, v) && Owes(w, s, low)
    ensures Owes(v, s, low)
  {
  }

  /** What a call under this low end keeps of a saved walk: the position, but not the pending rows below. */
  function Kept(walk: Scan, low: int): Scan
    requires walk.Walk?
  {
    Walk(walk.policy, walk.high, walk.ceiling, walk.below, set id | id in walk.pending && low <= id)
  }

  /** If the low end has risen since the walk was saved, what is kept of it is true exactly when none of the pending
      rows it forgets is still wanted. */
  lemma KeptExactly(w: World, walk: Scan, low: int)
    requires walk.Walk? && Proves(w, walk) && low <= walk.high + 1
    ensures Owes(w, Kept(walk, low), low)
    ensures Proves(w, Kept(walk, low)) <==> forall id :: id in walk.pending && id < low ==> !Wanted(w, walk.policy, id)
  {
    var kept := Kept(walk, low).pending;
    forall id | walk.below <= id <= walk.high && Wanted(w, walk.policy, id)
      ensures id in kept || (id in walk.pending && id < low)
    {
    }
  }

  /** A row forgotten that way: the low end was 5 and rises to 50. */
  lemma KeptLoses()
    ensures var w, walk := World(map[7 := Plain, 60 := Plain], 101, {}, {}),
                           Walk("conversational", 100, 101, 6, {7, 60});
      Proves(w, walk) && Wanted(w, "conversational", 7) && !Proves(w, Kept(walk, 50))
  {
    var w, walk := World(map[7 := Plain, 60 := Plain], 101, {}, {}), Walk("conversational", 100, 101, 6, {7, 60});
    PlainListed("conversational");
    assert Wanted(w, "conversational", 7);
    KeptExactly(w, walk, 50);
  }

  /** Every chunkable message the certificate names has a chunk. */
  ghost predicate ChunksAll(w: World, c: Coverage) {
    forall id :: c.first <= id <= c.through && Chunked(w, c.policy, id) ==> id in w.published
  }

  /** No chunkable message the certificate names has a role that, without its outer spaces, still begins or ends
      with white space. */
  ghost predicate RolesTrim(w: World, c: Coverage) {
    forall id :: c.first <= id <= c.through && Chunked(w, c.policy, id) ==> !OuterWhite(Trim(w.messages[id].role))
  }

  /** A certificate speaks of the messages the query lists.  Whatever has been published, a true one means that every
      chunkable message it names has a chunk, exactly when the roles of all those messages trim clean. */
  lemma CoverageOfChunkable(w: World, c: Coverage)
    requires c.policy != "full"
    ensures RolesTrim(w, c) <==>
      forall v: World :: v.messages == w.messages && TrulyCovers(v, c) ==> ChunksAll(v, c)
  {
    forall v: World | RolesTrim(w, c) && v.messages == w.messages && TrulyCovers(v, c)
      ensures ChunksAll(v, c)
    {
      forall id | c.first <= id <= c.through && Chunked(v, c.policy, id) ensures id in v.published {
        assert Chunked(w, c.policy, id) && !Needs(v, c.policy, id);
        MissedExactly(c.policy, w.messages[id]);
      }
    }
    if !RolesTrim(w, c) {
      var id :| c.first <= id <= c.through && Chunked(w, c.policy, id) && OuterWhite(Trim(w.messages[id].role));
      MissedExactly(c.policy, w.messages[id]);
      var v := w.(published := set k | k in w.messages && Listed(c.policy, w.messages[k]));
      assert TrulyCovers(v, c) && Chunked(v, c.policy, id) && id !in v.published;
      assert !ChunksAll(v, c);
    }
  }

  /** A turn whose role is "user" with a newline after it is certified without a chunk. */
  lemma UnlistedTurnMissed()
    ensures var m := Message("user\n", "hello");
      var w, c := World(map[1 := m], 2, {}, {}), Coverage(1, 1, "conversational");
      && Chunkable("conversational", m) && !Listed("conversational", m)
      && TrulyCovers(w, c) && Chunked(w, "conversational", 1) && 1 !in w.published
  {
    var m := Message("user\n", "hello");
    assert TrimRight("user\n", White) == "user" by {
      assert "user\n"[..4] == "user";
    }
    assert Lower("user") == "user";
    MissedExactly("conversational", m);
  }
}
