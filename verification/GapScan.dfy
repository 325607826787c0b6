/**
  The resumable chunk gap scan as the source runs it: one call walks message ids downwards from `high`, hands out the
  rows that still need a chunk and can be cut at any row.  Between its reads, around every row and before every write
  other processes change messages and chunks, move the cursor and write the records; they are fed in through `schedule`.
 */
module GapScan {
  import opened Wrappers
  import opened GapCoverage
  import opened GapPages
  import opened GapProgress
  import opened GapProof
  import opened GapSlips
  import opened GapStore

  /** What a call of the policy may add to the history by itself. */
  predicate Own(policy: string, e: Event) {
    e.Begins? || (e.Writes? && !e.write.scan.Empty? && e.write.scan.policy == policy)
  }

  class Identity {
    var store: Store
    /** What the running call remembers, and what the others will do meanwhile. */
    var state: Selection
    var schedule: seq<Moment>
    /** All that has happened to the store, by this call, the ones before it and the others, and what is allowed to. */
    const start: int
    ghost const allowed: Event -> bool
    ghost var history: seq<Event>

    ghost predicate Valid()
      reads this
    {
      && StoreOk(store) && Fenced(store, state) && Run(First(start), history) == store
      && (forall e :: e in history ==> allowed(e)) && Planned(schedule)
      && (forall e :: Own(state.policy, e) ==> allowed(e))
    }

    /** All that the others will do is allowed. */
    ghost predicate Planned(moments: seq<Moment>) {
      forall m, e :: m in moments && e in m.events ==> allowed(e)
    }

    function At(): Now
      reads this
    {
      Now(store, state, schedule)
    }

    constructor (floor: int, policy: string, ghost allowed: Event -> bool)
      requires forall e :: Own(policy, e) ==> allowed(e)
      ensures Valid() && store == First(floor) && start == floor && history == [] && this.allowed == allowed
    {
      start, store, schedule := floor, First(floor), [];
      state := Upper(policy, Read(floor, None, Empty), Record(Empty, 0, 0));
      this.allowed, history := allowed, [];
    }

    /** A point at which the others may do anything; says whether the scan is cut here. */
    method Turn() returns (stop: bool)
      requires Valid()
      modifies this`store, this`schedule, this`history
      ensures Valid() && Still(old(At()), At())
      ensures Alive(At()) ==> old(store.past.stood) <= store.past.stood
      ensures old(schedule) == [] ==> store == old(store) && schedule == [] && !stop
      ensures old(schedule) != [] ==>
        store == Run(old(store), old(schedule)[0].events) && schedule == old(schedule)[1..]
        && stop == old(schedule)[0].stop
    {
      stop := false;
      if schedule != [] {
        var m := schedule[0];
        RunOk(store, state, m.events);
        RunAppend(First(start), history, m.events);
        stop := m.stop;
        assert m in schedule;
        store, schedule, history := Run(store, m.events), schedule[1..], history + m.events;
        assert forall k :: k in schedule ==> k in old(schedule);
      }
    }

    /** The compare-and-set: the band's record is replaced, with the certificate, exactly when it is still the one this
        call knows, and for the lower band only under the parent record it was read with.  To the others it is one of
        the writes they allow for. */
    method Swap(w: Write) returns (saved: bool)
      requires Valid() && w.low == state.Lower? && w.read == state.read && !w.scan.Empty?
        && w.scan.policy == state.policy
      requires Mine(store, state) ==> Writable(store, w)
      modifies this`store, this`state, this`history
      ensures Valid() && saved == Mine(old(store), old(state)) && (saved ==> Mine(store, state))
      ensures !saved ==> store == old(store) && state == old(state) && history == old(history)
      ensures saved ==>
        && store == Written(old(store), w) && state == Wrote(old(state), store)
        && history == old(history) + [Writes(w)]
      ensures Then(old(At()), At()) && (w.Save? ==> Still(old(At()), At()))
    {
      saved := Mine(store, state);
      if saved {
        StepOk(store, Writes(w));
        RunOn(First(start), history, Writes(w));
        assert Own(state.policy, Writes(w));
        store, history := Written(store, w), history + [Writes(w)];
        state := Wrote(state, store);
      }
      SwapKeeps(old(At()), At(), w);
    }

    /** Save a ceiling; the others may come first. */
    method SaveCeiling(policy: string, high: int, ceiling: int)
      requires Valid() && policy == state.policy && high < store.world.nextId && ceiling <= high + 1
      requires CeilingFollows(state, ceiling) && Within(At(), policy, ceiling, high, {})
      modifies this
      ensures Valid() && Still(old(At()), At()) && (old(schedule) == [] ==> schedule == [])
    {
      var _ := Turn();
      ghost var x := At();
      WithinOn(old(At()), x, policy, ceiling, high, {});
      var w := Write.Save(state.Lower?, Ceiling(policy, high, ceiling), state.read);
      if Mine(store, state) {
        SaveFits(store, w);
      }
      var _ := Swap(w);
      StillOn(old(At()), x, At());
    }

    /** Save a walk; the others may come first.  Undisturbed, it lets exactly those rows slip that the walk it took up
        held, or that came after it, below the call's low end, and that are still wanted. */
    method SaveWalk(policy: string, low: int, high: int, walk: Scan) returns (saved: bool)
      requires Valid() && Saveable(At(), policy, low, high, Some(walk))
      modifies this
      ensures Valid() && Still(old(At()), At()) && (old(schedule) == [] ==> schedule == [])
      ensures saved ==> BandScan(At()) == walk
      ensures Quiet(old(schedule)) && Mine(old(store), old(state)) ==> saved && Owes(store.world, walk, low)
      ensures Quiet(old(schedule)) && saved ==>
        store.world.slipped ==
          old(store.world.slipped) + SlipRows(old(store.world), Write.Save(state.Lower?, walk, state.read))
    {
      var _ := Turn();
      ghost var x := At();
      SaveableOn(old(At()), x, policy, low, high, Some(walk));
      var w := Write.Save(state.Lower?, walk, state.read);
      if Mine(store, state) {
        SaveFits(store, w);
      }
      saved := Swap(w);
      SaveableOn(x, At(), policy, low, high, Some(walk));
      StillOn(old(At()), x, At());
    }

    /** Hand out one row of a page, or drop it when it has no chunk; `left` is what the page and the replay still hold
        below it.  Rows without a chunk lower the ceiling until one has. */
    method HandRow(policy: string, high: int, from: int, page: World, row: int, ghost left: set<int>,
                   metadataOnly: bool, mayRecord: bool, st: Progress)
      returns (out: Progress, cut: bool)
      requires Valid() && Running(At(), policy, high, st)
      requires LowEnd(state) <= from <= row <= high && row in st.unpublished
      requires high < page.nextId <= store.world.nextId && (Alive(At()) ==> Shrinks(page, store.world))
      requires (forall id :: id in left ==> id < row) && (forall id :: id in st.candidates ==> row < id)
      requires Within(At(), policy, from, high, ToSet(st.candidates) + {row} + left)
      modifies this
      ensures Valid() && Still(old(At()), At()) && Running(At(), policy, high, out)
      ensures out.candidates == st.candidates || out.candidates == st.candidates + [row]
      ensures st.unpublished - {row} <= out.unpublished <= st.unpublished
      ensures !cut ==> out.reached == st.reached + 1
      ensures !cut ==> Within(At(), policy, from, high, ToSet(out.candidates) + left)
      ensures old(schedule) == [] ==> !cut && schedule == []
      ensures old(schedule) != [] && old(schedule)[0].stop ==> cut
    {
      out := st;
      cut := Turn();
      RunningOn(old(At()), At(), policy, high, out);
      WithinOn(old(At()), At(), policy, from, high, ToSet(out.candidates) + {row} + left);
      if cut {
        return;
      }
      ghost var x := At();
      out := out.(reached := out.reached + 1);
      if metadataOnly || Chunked(page, policy, row) {
        out, cut := TakeRow(policy, high, from, row, left, mayRecord, out);
        StillOn(old(At()), x, At());
      } else {
        RowDropped(old(At()), At(), page, policy, row);
        out := DropRow(policy, high, from, row, left, out);
      }
    }

    /** A row without a chunk lowers the ceiling, as long as no row before it had one. */
    method DropRow(policy: string, high: int, from: int, row: int, ghost left: set<int>, st: Progress)
      returns (out: Progress)
      requires Running(At(), policy, high, st) && LowEnd(state) <= from <= row <= high
      requires (forall id :: id in left ==> id < row) && (forall id :: id in st.candidates ==> row < id)
      requires Alive(At()) ==> !Wanted(store.world, policy, row)
      requires Within(At(), policy, from, high, ToSet(st.candidates) + {row} + left)
      ensures Running(At(), policy, high, out)
      ensures out.candidates == st.candidates && out.unpublished == st.unpublished - {row} && out.reached == st.reached
      ensures out.ceiling == if st.candidates == [] then Min(st.ceiling, row) else st.ceiling
      ensures Within(At(), policy, from, high, ToSet(out.candidates) + left)
    {
      out := st.(unpublished := st.unpublished - {row});
      if out.candidates == [] {
        out := out.(ceiling := Min(out.ceiling, row));
      }
    }

    /** The row goes to the caller, the first one after the ceiling is saved. */
    method TakeRow(policy: string, high: int, from: int, row: int, ghost left: set<int>, mayRecord: bool, st: Progress)
      returns (out: Progress, cut: bool)
      requires Valid() && Running(At(), policy, high, st) && |st.candidates| < st.reached
      requires LowEnd(state) <= from <= row <= high && row in st.unpublished
      requires (forall id :: id in left ==> id < row) && (forall id :: id in st.candidates ==> row < id)
      requires Within(At(), policy, from, high, ToSet(st.candidates) + {row} + left)
      modifies this
      ensures Valid() && Still(old(At()), At()) && Running(At(), policy, high, out)
      ensures out == st.(candidates := st.candidates + [row])
      ensures Within(At(), policy, from, high, ToSet(out.candidates) + left)
      ensures old(schedule) == [] ==> !cut && schedule == []
    {
      out := st;
      ghost var ids := ToSet(out.candidates) + {row} + left;
      if out.candidates == [] && mayRecord && out.ceiling < high + 1 {
        SaveCeiling(policy, high, out.ceiling);
        RunningOn(old(At()), At(), policy, high, out);
        WithinOn(old(At()), At(), policy, from, high, ids);
      }
      DescendingAppend(out.candidates, row);
      out := out.(candidates := out.candidates + [row]);
      assert ToSet(out.candidates) + left == ids;
      ghost var x := At();
      cut := Turn();
      RunningOn(x, At(), policy, high, out);
      WithinOn(x, At(), policy, from, high, ids);
      StillOn(old(At()), x, At());
    }

    method HandOut(policy: string, high: int, from: int, rows: seq<int>, ghost rest: set<int>,
                   metadataOnly: bool, mayRecord: bool, st: Progress)
      returns (out: Progress, cut: bool)
      requires Valid() && Running(At(), policy, high, st) && Descending(rows) && LowEnd(state) <= from
      requires forall id :: id in rows ==> from <= id <= high && id in st.unpublished
      requires forall i, id :: i in rest && id in rows ==> i < id
      requires forall c, id :: c in st.candidates && id in rows ==> id < c
      requires Within(At(), policy, from, high, ToSet(st.candidates) + ToSet(rows) + rest)
      modifies this
      ensures Valid() && Still(old(At()), At()) && Running(At(), policy, high, out)
      ensures st.candidates <= out.candidates && out.unpublished <= st.unpublished
      ensures forall id :: id in out.candidates ==> id in st.candidates || id in rows
      ensures !cut ==> out.reached == st.reached + |rows|
      ensures !cut ==> Within(At(), policy, from, high, ToSet(out.candidates) + rest)
      ensures old(schedule) == [] ==> !cut && schedule == []
      ensures rows != [] && old(schedule) != [] && old(schedule)[0].stop ==> cut
    {
      out, cut := st, false;
      var page := store.world;
      for k := 0 to |rows|
        invariant Valid() && Still(old(At()), At()) && Running(At(), policy, high, out)
        invariant st.candidates <= out.candidates && out.unpublished <= st.unpublished
        invariant out.reached == st.reached + k
        invariant forall id :: id in out.candidates ==> id in st.candidates || id in rows[..k]
        invariant forall id :: id in rows[k..] ==> id in out.unpublished
        invariant Within(At(), policy, from, high, ToSet(out.candidates) + (ToSet(rows[k..]) + rest))
        invariant old(schedule) == [] ==> schedule == []
        invariant old(schedule) != [] && old(schedule)[0].stop ==> k == 0 && schedule == old(schedule)
      {
        ghost var left, x := ToSet(rows[k + 1..]) + rest, At();
        PageRow(rows, rest, k);
        assert ToSet(out.candidates) + (ToSet(rows[k..]) + rest) == ToSet(out.candidates) + {rows[k]} + left;
        AliveShrinks(old(At()), At());
        out, cut := HandRow(policy, high, from, page, rows[k], left, metadataOnly, mayRecord, out);
        StillOn(old(At()), x, At());
        if cut {
          return;
        }
      }
      assert ToSet(rows[|rows|..]) == {};
    }

    method TopRow(policy: string, high: int, page: World, row: int, metadataOnly: bool, st: Progress)
      returns (out: Progress, cut: bool)
      requires Valid() && Running(At(), policy, high, st)
      requires row <= high < page.nextId <= store.world.nextId && (Alive(At()) ==> Shrinks(page, store.world))
      requires st.unpublished == ToSet(st.candidates) && (forall id :: id in st.candidates ==> row < id)
      requires Within(At(), policy, row, high, ToSet(st.candidates) + {row})
      modifies this`store, this`schedule, this`history
      ensures Valid() && Still(old(At()), At()) && Running(At(), policy, high, out)
      ensures out.ceiling == st.ceiling && out.unpublished == ToSet(out.candidates)
      ensures out.candidates == st.candidates || out.candidates == st.candidates + [row]
      ensures !cut ==> out.reached == st.reached + 1
      ensures !cut ==> Within(At(), policy, row, high, ToSet(out.candidates))
      ensures old(schedule) == [] ==> !cut && schedule == []
    {
      out := st;
      cut := Turn();
      RunningOn(old(At()), At(), policy, high, out);
      WithinOn(old(At()), At(), policy, row, high, ToSet(out.candidates) + {row});
      if cut {
        return;
      }
      out := out.(reached := out.reached + 1);
      if metadataOnly || Chunked(page, policy, row) {
        DescendingAppend(out.candidates, row);
        out := out.(candidates := out.candidates + [row], unpublished := out.unpublished + {row});
        assert ToSet(out.candidates) == ToSet(st.candidates) + {row};
        ghost var x := At();
        cut := Turn();
        RunningOn(x, At(), policy, high, out);
        WithinOn(x, At(), policy, row, high, ToSet(out.candidates));
        StillOn(old(At()), x, At());
      } else {
        RowDropped(old(At()), At(), page, policy, row);
      }
    }

    /** One page of messages that arrived above the saved walk; `top` moves down to the last row read. */
    method TopPage(policy: string, high: int, rows: seq<int>, from: int, bound: int, take: nat, metadataOnly: bool,
                   st: Progress)
      returns (out: Progress, top: int, cut: bool)
      requires Valid() && Running(At(), policy, high, st)
      requires from <= bound <= high + 1 && 0 < take && IsPage(store.world, policy, from, bound, take, rows)
      requires st.unpublished == ToSet(st.candidates) && (forall id :: id in st.candidates ==> bound <= id)
      requires Within(At(), policy, bound, high, ToSet(st.candidates))
      modifies this`store, this`schedule, this`history
      ensures Valid() && Still(old(At()), At()) && Running(At(), policy, high, out)
      ensures out.ceiling == st.ceiling && out.unpublished == ToSet(out.candidates)
      ensures !cut ==> out.reached == st.reached + |rows|
      ensures forall id :: id in out.candidates ==> id in st.candidates || from <= id
      ensures !cut ==> from <= top <= bound && (forall id :: id in out.candidates ==> top <= id)
      ensures !cut ==> Within(At(), policy, top, high, ToSet(out.candidates))
      ensures !cut && |rows| < take ==> Within(At(), policy, from, high, ToSet(out.candidates))
      ensures !cut ==> |rows| + top <= bound
      ensures old(schedule) == [] ==> !cut && schedule == []
    {
      out, top, cut := st, bound, false;
      var page := store.world;
      for k := 0 to |rows|
        invariant Valid() && Still(old(At()), At()) && Running(At(), policy, high, out)
        invariant out.ceiling == st.ceiling && out.unpublished == ToSet(out.candidates)
        invariant out.reached == st.reached + k
        invariant top == (if k == 0 then bound else rows[k - 1]) && k + top <= bound
        invariant old(schedule) == [] ==> schedule == []
        invariant forall id :: id in out.candidates ==> top <= id && (id in st.candidates || from <= id)
        invariant Within(At(), policy, top, high, ToSet(out.candidates))
      {
        ghost var x := At();
        AliveShrinks(old(At()), At());
        BetweenRows(Alive(At()), page, store.world, policy, from, bound, take, rows, k, high, ToSet(out.candidates));
        out, cut := TopRow(policy, high, page, rows[k], metadataOnly, out);
        StillOn(old(At()), x, At());
        if cut {
          return;
        }
        top := rows[k];
      }
      if |rows| < take && Alive(At()) {
        AliveShrinks(old(At()), At());
        PageExhausted(page, store.world, policy, from, bound, take, rows, high, ToSet(out.candidates));
      }
    }

    /** Messages that arrived above the saved walk are read first.  Not `cut`: all of them have been. */
    method TopSegment(policy: string, low: int, high: int, walked: int, limit: nat, pageSize: nat,
                      metadataOnly: bool, st: Progress)
      returns (out: Progress, cut: bool, progress: Option<Scan>)
      requires Valid() && Running(At(), policy, high, st)
      requires 0 < limit && 0 < pageSize && st.candidates == [] && st.unpublished == {} && st.reached == 0
      requires low == LowEnd(state) && low <= high && walked < high
      modifies this`store, this`schedule, this`history
      ensures Valid() && Still(old(At()), At()) && Running(At(), policy, high, out)
      ensures out.ceiling == st.ceiling && out.unpublished == ToSet(out.candidates) && (!cut ==> out.reached < limit)
      ensures forall id :: id in out.candidates ==> Max(low, walked + 1) <= id
      ensures !cut ==> Within(At(), policy, Max(low, walked + 1), high, ToSet(out.candidates))
      ensures Saveable(At(), policy, low, high, progress)
      ensures !cut ==> out.reached <= high + 1 - Max(low, walked + 1)
      ensures Holds(progress, out.candidates)
      ensures old(schedule) == [] ==> schedule == [] && (high - low + 1 < limit ==> !cut)
      ensures progress.Some? ==> progress.value.below <= high
      ensures old(schedule) == [] && cut ==> progress.Some?
    {
      out, cut, progress := st, false, None;
      var from, top := Max(low, walked + 1), high + 1;
      while true
        invariant Valid() && Still(old(At()), At()) && Running(At(), policy, high, out)
        invariant out.ceiling == st.ceiling && out.unpublished == ToSet(out.candidates) && out.reached < limit
        invariant from <= top <= high + 1 && (forall id :: id in out.candidates ==> top <= id)
        invariant Within(At(), policy, top, high, ToSet(out.candidates))
        invariant out.reached <= high + 1 - top && (old(schedule) == [] ==> schedule == [])
        decreases limit - out.reached
      {
        ghost var x := At();
        var take := if pageSize < limit - out.reached then pageSize else limit - out.reached;
        var rows := FetchPage(store.world, policy, from, top, take);
        out, top, cut := TopPage(policy, high, rows, from, top, take, metadataOnly, out);
        StillOn(old(At()), x, At());
        if cut {
          return;
        }
        if out.reached == limit {
          progress := Some(Walk(policy, high, out.ceiling, top, out.unpublished));
          TopSaveable(At(), policy, low, high, top, out);
          cut := true;
          return;
        }
        if |rows| < pageSize {
          return;
        }
      }
    }

    /** The rows of one page of the walk, where it stands then, and the replay proof it leaves before any of them is
        handed out. */
    method ReadPage(policy: string, low: int, high: int, take: nat, keepWalk: bool, at: Position, st: Progress)
      returns (rows: seq<int>, next: Position, out: Progress, progress: Option<Scan>)
      requires Running(At(), policy, high, st) && Walking(At(), policy, low, high, at, st)
      requires 0 < take && low <= high + 1 && (at.replay != [] || !at.complete) && (keepWalk ==> low == LowEnd(state))
      ensures out == st.(unpublished := st.unpublished + ToSet(rows)) && Running(At(), policy, high, out)
      ensures Descending(rows) && |rows| <= take && Descending(next.replay)
      ensures next.below <= at.below && Max(low, next.below) <= Max(low, at.below)
      ensures next.below == at.below || low <= next.below
      ensures forall id :: id in rows || id in next.replay ==> Max(low, next.below) <= id <= high
      ensures forall id :: id in rows ==> Origin(store.world, policy, at, id)
      ensures forall id :: id in next.replay ==> id in at.replay
      ensures forall i, id :: i in next.replay && id in rows ==> i < id
      ensures forall c, id :: c in st.candidates && (id in rows || id in next.replay) ==> id < c
      ensures next.complete ==> next.replay == []
      ensures Within(At(), policy, if next.complete then low else Max(low, next.below), high,
                     ToSet(st.candidates) + ToSet(rows) + ToSet(next.replay))
      ensures |rows| + Room(low, next) <= Room(low, at)
      ensures rows != [] || |next.replay| < |at.replay| || (next.replay == at.replay && next.complete)
      ensures (progress.Some? <==> keepWalk) && Saveable(At(), policy, low, high, progress)
      ensures progress.Some? ==> progress.value.below == next.below
      ensures Stops(At(), at) ==> rows != []
      ensures at.replay == [] ==> (next.complete && |rows| < take) || (!next.complete && next.below < at.below)
      ensures at.replay != [] ==>
        next.below == at.below && !next.complete && |rows| + |next.replay| <= |at.replay|
      ensures progress.Some? ==> out.unpublished <= progress.value.pending
    {
      var below, replay, complete;
      rows, below, replay, complete := NextRows(store.world, policy, low, high, take, at.below, at.replay, at.complete,
                                                ToSet(st.candidates), Alive(At()));
      out, progress := st.(unpublished := st.unpublished + ToSet(rows)), None;
      next := Position(below, replay, complete);
      if keepWalk {
        progress := Some(Walk(policy, high, out.ceiling, below, out.unpublished + ToSet(replay)));
      }
    }

    method WalkPage(policy: string, low: int, high: int, take: nat, metadataOnly: bool, mayRecord: bool, keepWalk: bool,
                    at: Position, st: Progress)
      returns (next: Position, out: Progress, cut: bool, progress: Option<Scan>)
      requires Valid() && Running(At(), policy, high, st) && Walking(At(), policy, low, high, at, st)
      requires 0 < take && low <= high + 1 && (at.replay != [] || !at.complete) && (keepWalk ==> low == LowEnd(state))
      modifies this
      ensures Valid() && Still(old(At()), At()) && Running(At(), policy, high, out)
      ensures forall id :: id in out.candidates ==> id in st.candidates || Origin(old(store.world), policy, at, id)
      ensures forall id :: id in out.candidates ==> low <= id <= high
      ensures !cut ==> Walking(At(), policy, low, high, next, out)
      ensures !cut ==> next.below <= at.below && (forall id :: id in next.replay ==> id in at.replay)
      ensures !cut ==> st.reached <= out.reached <= st.reached + take
      ensures !cut ==> out.reached + Room(low, next) <= st.reached + Room(low, at)
      ensures !cut ==>
        st.reached < out.reached || |next.replay| < |at.replay| || (next.replay == at.replay && next.complete)
      ensures (progress.Some? <==> keepWalk) && Saveable(At(), policy, low, high, progress)
      ensures progress.Some? ==> progress.value.below <= at.below && (!cut ==> progress.value.below == next.below)
      ensures Holds(progress, out.candidates)
      ensures !cut ==> next.below == at.below || low <= next.below
      ensures !cut && at.replay == [] ==>
        if next.complete then out.reached < st.reached + take else next.below < at.below
      ensures !cut && at.replay != [] ==>
        next.below == at.below && !next.complete && out.reached + |next.replay| <= st.reached + |at.replay|
      ensures old(schedule) == [] ==> !cut && schedule == []
      ensures Stops(old(At()), at) ==> cut
    {
      var rows;
      rows, next, out, progress := ReadPage(policy, low, high, take, keepWalk, at, st);
      out, cut := HandOut(policy, high, if next.complete then low else Max(low, next.below), rows, ToSet(next.replay),
                          metadataOnly, mayRecord, out);
      SaveableOn(old(At()), At(), policy, low, high, progress);
      if !cut {
        WalkGoesOn(At(), policy, low, high, st.candidates + rows, next, out);
      }
    }

    /** The walk itself: first the saved candidates, then page after page down to `low`, at most `limit` rows. */
    method WalkRange(policy: string, low: int, high: int, limit: nat, pageSize: nat, metadataOnly: bool,
                     mayRecord: bool, keepWalk: bool, start: Position, st: Progress)
      returns (at: Position, out: Progress, cut: bool, progress: Option<Scan>)
      requires Valid() && Running(At(), policy, high, st) && Walking(At(), policy, low, high, start, st)
      requires 0 < pageSize && st.reached <= limit && low <= high + 1 && (keepWalk ==> low == LowEnd(state))
      modifies this
      ensures Valid() && Still(old(At()), At()) && Running(At(), policy, high, out)
      ensures !cut ==> Walking(At(), policy, low, high, at, out) && at.below <= start.below
      ensures Saveable(At(), policy, low, high, progress) && (progress.Some? ==> keepWalk)
      ensures progress.Some? ==> progress.value.below <= start.below && (!cut ==> progress.value.below == at.below)
      ensures Holds(progress, out.candidates)
      ensures keepWalk && !start.complete && st.reached < limit ==> progress.Some?
      ensures !cut ==> at.below == start.below || low <= at.below
      ensures !cut && at.complete && !start.complete ==> out.reached < limit
      ensures !cut && !at.complete && st.reached + |start.replay| < limit ==> at.below < start.below
      ensures forall id :: id in out.candidates ==> low <= id <= high
      ensures old(schedule) == [] ==> !cut && schedule == []
      ensures old(schedule) == [] ==>
        forall id :: id in out.candidates ==> id in st.candidates || Origin(old(store.world), policy, start, id)
      ensures old(schedule) == [] && st.reached + Room(low, start) < limit ==> at.complete && out.reached < limit
      ensures Stops(old(At()), start) && st.reached < limit ==> cut
    {
      at, out, cut, progress := start, st, false, None;
      while (at.replay != [] || !at.complete) && out.reached < limit
        invariant Valid() && Still(old(At()), At())
        invariant Running(At(), policy, high, out) && Walking(At(), policy, low, high, at, out)
        invariant out.reached <= limit && at.below <= start.below
        invariant Saveable(At(), policy, low, high, progress) && (progress.Some? ==> keepWalk)
        invariant progress.Some? ==> progress.value.below == at.below
        invariant Holds(progress, out.candidates)
        invariant at.below == start.below || low <= at.below
        invariant at.complete && !start.complete ==> out.reached < limit
        invariant at.below < start.below || at.complete || out.reached + |at.replay| <= st.reached + |start.replay|
        invariant keepWalk ==> progress.Some? || (at == start && out == st)
        invariant Stops(old(At()), start) && st.reached < limit ==>
          at == start && out == st && store == old(store) && schedule == old(schedule)
        invariant forall id :: id in out.candidates ==> low <= id <= high
        invariant out.reached + Room(low, at) <= st.reached + Room(low, start)
        invariant old(schedule) == [] ==> schedule == []
        invariant forall id :: id in at.replay ==> id in start.replay
        invariant old(schedule) == [] ==>
          forall id :: id in out.candidates ==> id in st.candidates || Origin(old(store.world), policy, start, id)
        decreases limit - out.reached, |at.replay|, !at.complete
      {
        var take := if pageSize < limit - out.reached then pageSize else limit - out.reached;
        ghost var x := At();
        at, out, cut, progress := WalkPage(policy, low, high, take, metadataOnly, mayRecord, keepWalk, at, out);
        StillOn(old(At()), x, At());
        if cut {
          return;
        }
      }
    }

    method ReplayBatch(policy: string, low: int, high: int, rows: seq<int>, ghost rest: set<int>, metadataOnly: bool,
                       start: seq<int>, ghost all: bool)
      returns (candidates: seq<int>, cut: bool)
      requires Valid() && high < store.world.nextId && Descending(rows) && Descending(start)
      requires (forall i, id :: i in rest && id in rows ==> i < id)
        && (forall c, id :: c in start && id in rows ==> id < c)
      requires forall id :: id in rows ==> id <= high
      requires all ==> Within(At(), policy, low, high, ToSet(start) + (ToSet(rows) + rest))
      modifies this`store, this`schedule, this`history
      ensures Valid() && Still(old(At()), At()) && Descending(candidates)
      ensures forall id :: id in candidates ==> id in start || id in rows
      ensures all && !cut ==> Within(At(), policy, low, high, ToSet(candidates) + rest)
      ensures old(schedule) == [] ==> !cut && schedule == []
    {
      candidates, cut := start, false;
      var page := store.world;
      for j := 0 to |rows|
        invariant Valid() && Still(old(At()), At()) && Descending(candidates)
        invariant forall id :: id in candidates ==> id in start || id in rows[..j]
        invariant all ==> Within(At(), policy, low, high, ToSet(candidates) + (ToSet(rows[j..]) + rest))
        invariant old(schedule) == [] ==> schedule == []
      {
        ghost var ids, x := ToSet(candidates) + (ToSet(rows[j..]) + rest), At();
        PageRow(rows, rest, j);
        AliveShrinks(old(At()), At());
        candidates, cut := ReplayRow(policy, low, high, page, rows[j], ids, metadataOnly, candidates, all);
        StillOn(old(At()), x, At());
        if cut {
          return;
        }
        assert ids - {rows[j]} <= ToSet(candidates) + (ToSet(rows[j + 1..]) + rest);
      }
      assert rows[|rows|..] == [];
    }

    method ReplayRow(policy: string, low: int, high: int, page: World, row: int, ghost ids: set<int>,
                     metadataOnly: bool, start: seq<int>, ghost all: bool)
      returns (candidates: seq<int>, cut: bool)
      requires Valid() && row <= high < page.nextId <= store.world.nextId
        && (Alive(At()) ==> Shrinks(page, store.world))
      requires Descending(start) && (forall id :: id in start ==> row < id)
      requires all ==> Within(At(), policy, low, high, ids)
      modifies this`store, this`schedule, this`history
      ensures Valid() && Still(old(At()), At()) && Descending(candidates)
      ensures candidates == start || candidates == start + [row]
      ensures all && !cut ==>
        Within(At(), policy, low, high, ids) && (row in candidates || Within(At(), policy, low, high, ids - {row}))
      ensures old(schedule) == [] ==> !cut && schedule == []
    {
      candidates := start;
      cut := Turn();
      if all {
        WithinOn(old(At()), At(), policy, low, high, ids);
      }
      if cut {
        return;
      }
      if metadataOnly || Chunked(page, policy, row) {
        DescendingAppend(candidates, row);
        candidates := candidates + [row];
        ghost var x := At();
        cut := Turn();
        if all {
          WithinOn(x, At(), policy, low, high, ids);
        }
        StillOn(old(At()), x, At());
      } else {
        RowDropped(old(At()), At(), page, policy, row);
      }
    }

    /** Saved candidates of an exhausted range are revisited newest first, whatever the row budget. */
    method ReplayPending(policy: string, low: int, high: int, ids: seq<int>, pageSize: nat, metadataOnly: bool,
                         start: seq<int>, ghost all: bool)
      returns (candidates: seq<int>, cut: bool)
      requires Valid() && 0 < pageSize && high < store.world.nextId && Descending(ids) && Descending(start)
      requires (forall c, id :: c in start && id in ids ==> id < c) && (forall id :: id in ids ==> id <= high)
      requires all ==> Within(At(), policy, low, high, ToSet(start) + ToSet(ids))
      modifies this`store, this`schedule, this`history
      ensures Valid() && Still(old(At()), At()) && Descending(candidates)
      ensures forall id :: id in candidates ==> id in start || id in ids
      ensures all && !cut ==> Within(At(), policy, low, high, ToSet(candidates))
      ensures ids == [] ==> candidates == start && !cut && At() == old(At())
      ensures old(schedule) == [] ==> !cut && schedule == []
    {
      candidates, cut := start, false;
      var size := if pageSize < 500 then pageSize else 500;
      var k := 0;
      while k < |ids|
        invariant Valid() && Still(old(At()), At()) && Descending(candidates) && k <= |ids|
        invariant forall id :: id in candidates ==> id in start || id in ids[..k]
        invariant all ==> Within(At(), policy, low, high, ToSet(candidates) + ToSet(ids[k..]))
        invariant k == 0 ==> candidates == start && !cut && At() == old(At())
        invariant old(schedule) == [] ==> schedule == []
      {
        ghost var x := At();
        var end := if k + size < |ids| then k + size else |ids|;
        var rows := FetchIds(store.world, ids[k..end]);
        BatchFetched(store.world, policy, low, high, ids, k, end, rows, ToSet(candidates), all && Alive(At()));
        candidates, cut := ReplayBatch(policy, low, high, rows, ToSet(ids[end..]), metadataOnly, candidates, all);
        StillOn(old(At()), x, At());
        if cut {
          return;
        }
        k := end;
      }
      assert ids[|ids|..] == [];
    }

    /** A call that has read the cursor's low end and the certificate reads the upper record, and makes a missing one
        first, so that dropping it shows. */
    method OpenUpper(policy: string, floor: int, coverage: Option<Coverage>)
      requires Valid() && floor in store.past.floors && coverage in store.past.covers
      requires forall e :: Own(policy, e) ==> allowed(e)
      modifies this`store, this`state, this`history
      ensures store == Begun(old(store), false) && store.upper.Some?
        && state == ReadUpper(store, policy, floor, coverage)
      ensures Valid() && EpochKept(old(store), store)
    {
      StepOk(store, Begins(false));
      assert Own(policy, Begins(false));
      ReadFenced(Begun(store, false), policy, floor, coverage);
      RunOn(First(start), history, Begins(false));
      store, history := Begun(store, false), history + [Begins(false)];
      state := ReadUpper(store, policy, floor, coverage);
    }

    /** A call of the lower band then reads that band's own record; a missing one is made only under the parent record
        it has read. */
    method OpenLower() returns (ready: bool)
      requires Valid() && state.Upper? && state.read.floor in store.past.floors
        && state.read.coverage in store.past.covers
      requires state.read.coverage.Some? && state.read.coverage.value.policy == state.policy
      requires state.read.floor < state.read.coverage.value.first
      modifies this`store, this`state, this`history
      ensures Valid() && EpochKept(old(store), store)
      ensures ready <==> old(store.lower).Some? || Live(old(store), old(state))
      ensures store == if old(store.lower).None? && ready then Begun(old(store), true) else old(store)
      ensures ready ==> store.lower.Some? && state == ReadLower(store, old(state))
    {
      if store.lower.None? {
        if store.upper != Some(state.fence) {
          return false;
        }
        StepOk(store, Begins(true));
        assert Own(state.policy, Begins(true));
        RunOn(First(start), history, Begins(true));
        store, history := Begun(store, true), history + [Begins(true)];
      }
      ReadLowerFenced(store, state);
      state := ReadLower(store, state);
      ready := true;
    }

    /** What a call has read is still there as long as its fence stands. */
    ghost predicate Opened()
      reads this
    {
      Valid() && (Live(store, state) ==> Mine(store, state))
    }

    /** The walk found, as it was saved for this very range. */
    ghost predicate Resumes(high: int)
      reads this`state
    {
      state.read.taken.Walk? && state.read.taken.high == high
    }

    /** A finished record of this very range is found, and none of its pending rows is in the band. */
    ghost predicate Finished(low: int, high: int)
      reads this`state
    {
      && state.Upper? && state.read.taken.Done? && state.read.taken.high == high
      && (forall id :: id in state.read.taken.pending ==> id < low)
    }

    /** With them read, the walk goes on where the saved one stands. */
    method Arrivals(policy: string, low: int, high: int, walked: int, limit: nat, pageSize: nat, metadataOnly: bool,
                    ghost at: Position, st: Progress)
      returns (out: Progress, cut: bool, progress: Option<Scan>)
      requires Valid() && Running(At(), policy, high, st) && 0 < limit && 0 < pageSize && low == LowEnd(state)
      requires st.candidates == [] && st.unpublished == {} && st.reached == 0 && low <= high && walked < high
      requires BelowFollows(state, at.below, high) && at.below <= walked + 1 && !at.complete && Descending(at.replay)
      requires forall id :: id in at.replay ==> Max(low, at.below) <= id <= walked
      requires Within(At(), policy, Max(low, at.below), walked, ToSet(at.replay))
      modifies this`store, this`schedule, this`history
      ensures Valid() && Still(old(At()), At()) && Running(At(), policy, high, out)
      ensures forall id :: id in out.candidates ==> low <= id
      ensures !cut ==> Walking(At(), policy, low, high, at, out) && out.reached < limit
      ensures Saveable(At(), policy, low, high, progress) && Holds(progress, out.candidates)
      ensures !cut ==> out.reached <= high + 1 - Max(low, walked + 1)
      ensures progress.Some? ==> progress.value.below <= high
      ensures old(schedule) == [] ==> schedule == [] && (cut ==> progress.Some?) && (high - low + 1 < limit ==> !cut)
    {
      out, cut, progress := TopSegment(policy, low, high, walked, limit, pageSize, metadataOnly, st);
      WithinOn(old(At()), At(), policy, Max(low, at.below), walked, ToSet(at.replay));
      if !cut {
        ArrivalsRead(At(), policy, low, high, walked, at, out);
      }
    }

    /** Pick up the saved record: where the walk starts and what to revisit.  `first` is how far down a finished record
        reaches; messages that arrived above a saved walk are still to be read. */
    method TakeUp(policy: string, low: int, high: int)
      returns (from: int, pending: seq<int>, first: int, st: Progress, at: Position)
      requires Opened() && policy == state.policy && low == LowEnd(state) && low <= high < store.world.nextId
      ensures Running(At(), policy, high, st) && st.candidates == [] && st.unpublished == {} && st.reached == 0
      ensures low <= first <= from <= high + 1 && at.below <= high + 1
      ensures first > low ==> state.read.taken.Done? && state.Upper? && first == state.read.taken.from
      ensures Descending(pending) && (forall id :: id in pending ==> low <= id < from)
      ensures Within(At(), policy, first, from - 1, ToSet(pending))
      ensures !state.read.taken.Done? ==> from == low && pending == []
      ensures Finished(low, high) ==> pending == [] && from == high + 1
      ensures var w := state.read.taken; Continues(w, high) ==>
        at.below == StartsAt(w, high) && !at.complete && |at.replay| == |Waiting(w, low, high)|
      ensures var w := state.read.taken;
        if w.Walk? && w.high <= high then
          && at.below == w.below && !at.complete && Descending(at.replay)
          && (forall id :: id in at.replay <==> id in w.pending && low <= id <= w.high)
          && Within(At(), policy, Max(low, w.below), w.high, ToSet(at.replay))
        else Walking(At(), policy, from, high, at, st)
    {
      var saved := state.read.taken;
      assert Alive(At()) ==> Proves(store.world, saved);
      from, pending, first := low, [], low;
      var ceiling := high + 1;
      if saved.Done? && saved.high <= high && state.Upper? {
        pending := SortedDown(saved.pending, low, saved.high);
        if Alive(At()) {
          TakenWithin(store.world, policy, saved.pending, saved.from, low, saved.high, pending);
        }
        from := Max(low, saved.high + 1);
        assert Finished(low, high) && pending != [] ==> pending[0] in pending;
        first := Max(low, saved.from);
      } else if (saved.Ceiling? || saved.Walk?) && saved.high == high {
        ceiling := saved.ceiling;
      }
      st, at := Progress(ceiling, [], {}, 0), Position(ceiling, [], from > high);
      if saved.Walk? && saved.high <= high {
        var replay := SortedDown(saved.pending, low, saved.high);
        if Alive(At()) {
          TakenWithin(store.world, policy, saved.pending, saved.below, low, saved.high, replay);
        }
        at := Position(saved.below, replay, false);
      } else {
        StartsWalking(At(), policy, from, high, ceiling);
      }
      if Continues(saved, high) {
        ReplaySize(saved, low, high, at.replay);
      }
    }

    /** And the newest arrivals first. */
    method Resume(policy: string, low: int, high: int, limit: nat, pageSize: nat, metadataOnly: bool)
      returns (from: int, pending: seq<int>, first: int, keepWalk: bool, st: Progress, at: Position, cut: bool,
               progress: Option<Scan>)
      requires Opened() && policy == state.policy && low == LowEnd(state) && low <= high < store.world.nextId
      requires 0 < limit && 0 < pageSize
      modifies this`store, this`schedule, this`history
      ensures Valid() && Still(old(At()), At()) && Running(At(), policy, high, st)
      ensures low <= first <= from <= high + 1 && (keepWalk ==> from == low && pending == [])
      ensures ReadFrom(state, first)
      ensures (forall id :: id in st.candidates ==> from <= id)
      ensures Descending(pending) && (forall id :: id in pending ==> low <= id < from)
      ensures Within(At(), policy, first, from - 1, ToSet(pending))
      ensures !cut ==> Walking(At(), policy, from, high, at, st) && st.reached < limit
      ensures Saveable(At(), policy, low, high, progress)
      ensures keepWalk <==> !state.read.taken.Done?
      ensures keepWalk && !cut ==>
        !at.complete && (at.below < StartsAt(state.read.taken, high) || Continues(state.read.taken, high))
      ensures keepWalk && cut && old(schedule) == [] ==> progress.Some?
      ensures progress.Some? ==> Lowered(progress, state.read.taken, low, high)
      ensures old(schedule) == [] ==> schedule == []
      ensures Continues(state.read.taken, high) ==>
        && At() == old(At()) && !cut && keepWalk && progress.None? && st.candidates == [] && st.reached == 0
        && at.below == StartsAt(state.read.taken, high) && !at.complete
        && |at.replay| == |Waiting(state.read.taken, low, high)|
      ensures old(Resumes(high)) ==> forall id :: Origin(store.world, policy, at, id) ==> old(Walked(policy, id))
      ensures Holds(progress, st.candidates)
      ensures old(Finished(low, high)) ==> !cut && pending == [] && from == high + 1
      ensures old(CutAtOnce(low, high)) ==> !cut && Stops(At(), at)
      ensures !cut ==> st.reached + Room(from, at) <= high + 1 - low
      ensures old(schedule) == [] && high - low + 1 < limit ==> !cut && schedule == []
    {
      var saved := state.read.taken;
      from, pending, first, st, at := TakeUp(policy, low, high);
      keepWalk, cut, progress := !saved.Done?, false, None;
      assert CutAtOnce(low, high) ==> at.replay != [] && at.replay[0] in at.replay;
      ReplayRoom(from, if saved.Walk? && saved.high < high then Max(low - 1, saved.high) else high, at);
      if saved.Walk? && saved.high < high {
        st, cut, progress := Arrivals(policy, low, high, saved.high, limit, pageSize, metadataOnly, at, st);
      }
    }

    /** Natural exhaustion: everything up to the oldest row handed out is certified, down to the call's low end; what a
        finished record did not reach, below `first`, slips if it is still wanted.  The others may come between the
        certificate read before and the write. */
    method Certify(first: int, high: int, handed: seq<int>)
      requires Valid() && ReadFrom(state, first) && LowEnd(state) <= high < store.world.nextId && first <= high + 1
      requires Descending(handed) && (forall id :: id in handed ==> LowEnd(state) <= id <= high)
      requires Within(At(), state.policy, first, high, ToSet(handed))
      modifies this
      ensures Valid() && Then(old(At()), At()) && Within(At(), state.policy, first, high, ToSet(handed))
      ensures Quiet(old(schedule)) && Mine(old(store), old(state)) ==>
        && BandDone(At(), old(store.coverage), LowEnd(state), high, handed)
        && store.world.slipped ==
             old(store.world.slipped)
               + SlipRows(old(store.world), DoneWrite(old(state), high, handed, old(store.coverage)))
    {
      var before := store.coverage;
      var _ := Turn();
      ghost var x := At();
      WithinOn(old(At()), x, state.policy, first, high, ToSet(handed));
      var w := DoneWrite(state, high, handed, before);
      if Mine(store, state) {
        DoneFits(store, state, first, high, handed, before);
      }
      var _ := Swap(w);
      ThenOn(old(At()), x, At());
      WithinOn(x, At(), state.policy, first, high, ToSet(handed));
    }

    /** A range not exhausted leaves its ceiling, and a walk of the whole band without candidates leaves itself. */
    method Leave(policy: string, low: int, from: int, high: int, handed: seq<int>, keepWalk: bool, at: Position,
                 st: Progress, earlier: Option<Scan>)
      returns (progress: Option<Scan>)
      requires Valid() && Running(At(), policy, high, st) && Saveable(At(), policy, low, high, earlier) && low <= high
      requires Walking(At(), policy, from, high, at, st) && (keepWalk ==> from == low) && low == LowEnd(state)
      modifies this
      ensures Valid() && Still(old(At()), At()) && Saveable(At(), policy, low, high, progress)
      ensures progress == earlier || (progress.Some? && progress.value.below == at.below && handed == [] && keepWalk)
    {
      progress := earlier;
      if st.ceiling < high + 1 {
        SaveCeiling(policy, high, st.ceiling);
        RunningOn(old(At()), At(), policy, high, st);
        WalkingOn(old(At()), At(), policy, from, high, at, st);
        SaveableOn(old(At()), At(), policy, low, high, earlier);
      }
      if handed == [] && keepWalk {
        progress := Some(Walk(policy, high, st.ceiling, at.below, st.unpublished + ToSet(at.replay)));
        WalkSaveable(At(), policy, low, high, at, st);
      }
    }

    /** Record what is now proved: the end of an exhausted range, or how far another one has come. */
    method RecordProof(policy: string, low: int, first: int, high: int, limit: nat, from: int, handed: seq<int>,
                  keepWalk: bool, at: Position, st: Progress, earlier: Option<Scan>)
      returns (progress: Option<Scan>)
      requires Valid() && low == LowEnd(state) && ReadFrom(state, first) && low <= high && first <= high + 1
      requires Running(At(), policy, high, st) && Walking(At(), policy, from, high, at, st)
      requires Descending(handed) && (forall id :: id in handed ==> low <= id <= high)
      requires at.complete ==> Within(At(), policy, first, high, ToSet(handed))
      requires (keepWalk ==> from == low) && Saveable(At(), policy, low, high, earlier)
      modifies this
      ensures Valid() && Then(old(At()), At()) && Saveable(At(), policy, low, high, progress)
      ensures at.complete ==> Within(At(), policy, first, high, ToSet(handed))
      ensures progress.None? || progress == earlier || (progress.value.below == at.below && handed == [] && keepWalk)
      ensures earlier.Some? && !at.complete ==> progress.Some?
      ensures Quiet(old(schedule)) && !at.complete ==> store.coverage == old(store.coverage)
      ensures Quiet(old(schedule)) && Mine(old(store), old(state)) && at.complete && |handed| < limit ==>
        BandDone(At(), old(store.coverage), low, high, handed)
      ensures at.complete && |handed| < limit ==> progress.None?
    {
      progress := earlier;
      if !at.complete {
        progress := Leave(policy, low, from, high, handed, keepWalk, at, st, earlier);
      } else if |handed| < limit {
        progress := None;
        Certify(first, high, handed);
      }
    }

    /** After the walk: revisit what an exhausted range left pending, then record what is now proved. */
    method Conclude(policy: string, low: int, first: int, high: int, limit: nat, pageSize: nat, metadataOnly: bool,
                    from: int, pending: seq<int>, keepWalk: bool, at: Position, st: Progress, earlier: Option<Scan>)
      returns (handed: seq<int>, unproven: bool, progress: Option<Scan>)
      requires Valid() && low == LowEnd(state) && ReadFrom(state, first)
      requires low <= high && 0 < pageSize && low <= first <= from <= high + 1
      requires keepWalk ==> from == low && pending == []
      requires Running(At(), policy, high, st) && Walking(At(), policy, from, high, at, st)
      requires Within(At(), policy, first, from - 1, ToSet(pending))
      requires forall id :: id in st.candidates ==> from <= id
      requires Descending(pending) && (forall id :: id in pending ==> low <= id < from)
      requires Saveable(At(), policy, low, high, earlier)
      modifies this
      ensures Valid() && Then(old(At()), At()) && Saveable(At(), policy, low, high, progress)
      ensures Descending(handed) && (forall id :: id in handed ==> low <= id <= high)
      ensures !unproven ==> Within(At(), policy, first, high, ToSet(handed))
      ensures progress.None? || progress == earlier || (progress.value.below == at.below && handed == [] && keepWalk)
      ensures pending == [] && earlier.Some? && unproven ==> progress.Some?
      ensures pending == [] ==> handed == st.candidates
      ensures Quiet(old(schedule)) && unproven ==> store.coverage == old(store.coverage)
      ensures (pending == [] || old(schedule) == []) && at.complete ==> !unproven
      ensures !unproven ==> at.complete
      ensures Quiet(old(schedule)) && Mine(old(store), old(state)) && !unproven && |handed| < limit ==>
        BandDone(At(), old(store.coverage), low, high, handed)
      ensures !unproven && |handed| < limit ==> progress.None?
    {
      var cut;
      handed, cut := ReplayPending(policy, first, high, pending, pageSize, metadataOnly, st.candidates, at.complete);
      ghost var x := At();
      unproven, progress := cut || !at.complete, earlier;
      SaveableOn(old(At()), x, policy, low, high, earlier);
      if cut {
        return;
      }
      RunningOn(old(At()), x, policy, high, st);
      WalkingOn(old(At()), x, policy, from, high, at, st);
      progress := RecordProof(policy, low, first, high, limit, from, handed, keepWalk, at, st, earlier);
      ThenOn(old(At()), x, At());
    }

    /** The first row a resumed walk revisits is still there, and the call is cut at it. */
    ghost predicate CutAtOnce(low: int, high: int)
      reads this
    {
      && Resumes(high) && schedule != [] && schedule[0].stop
      && (exists id :: id in state.read.taken.pending && low <= id <= high)
      && (forall id :: id in state.read.taken.pending && low <= id <= high ==>
            id in store.world.messages && id !in store.world.published)
    }

    /** A call of the upper band, its record in place, that nothing disturbs and that resumes a walk of this range. */
    ghost predicate Alone(high: int)
      reads this
    {
      state.Upper? && Live(store, state) && Resumes(high) && Quiet(schedule)
    }

    /** The row waited in the walk found, or a page below its position lists it. */
    ghost predicate Walked(policy: string, id: int)
      reads this
    {
      && state.read.taken.Walk?
      && (id in state.read.taken.pending || (id < state.read.taken.below && Unpublished(store.world, policy, id)))
    }

    /** The walk and what follows it. */
    method WalkOut(policy: string, low: int, first: int, high: int, limit: nat, pageSize: nat, metadataOnly: bool,
                   from: int, pending: seq<int>, keepWalk: bool, start: Position, st: Progress)
      returns (handed: seq<int>, unproven: bool, progress: Option<Scan>)
      requires Valid() && low == LowEnd(state) && ReadFrom(state, first) && st.reached < limit
      requires low <= high && 0 < pageSize && low <= first <= from <= high + 1
      requires keepWalk ==> from == low && pending == []
      requires Running(At(), policy, high, st) && Walking(At(), policy, from, high, start, st)
      requires Within(At(), policy, first, from - 1, ToSet(pending))
      requires forall id :: id in st.candidates ==> from <= id
      requires Descending(pending) && (forall id :: id in pending ==> low <= id < from)
      modifies this
      ensures Valid() && Then(old(At()), At()) && Saveable(At(), policy, low, high, progress)
      ensures Descending(handed) && (forall id :: id in handed ==> low <= id <= high)
      ensures !unproven ==> Within(At(), policy, first, high, ToSet(handed))
      ensures progress.Some? ==> progress.value.below <= start.below
      ensures keepWalk && !start.complete ==>
        if unproven then progress.Some? else |handed| < limit
      ensures Holds(progress, handed)
      ensures old(schedule) == [] && keepWalk && !start.complete && st.reached + |start.replay| < limit && unproven ==>
        low <= progress.value.below < start.below
      ensures Stops(old(At()), start) ==> unproven
      ensures pending == [] && from == high + 1 ==> handed == []
      ensures Quiet(old(schedule)) && unproven ==> store.coverage == old(store.coverage)
      ensures old(schedule) == [] && st.reached + Room(from, start) < limit ==> !unproven
      ensures high - low + 1 < limit ==> |handed| < limit
      ensures keepWalk && old(schedule) == [] ==>
        forall id :: id in handed ==> id in st.candidates || Origin(old(store.world), policy, start, id)
      ensures Quiet(old(schedule)) && Mine(old(store), old(state)) && !unproven && |handed| < limit ==>
        BandDone(At(), old(store.coverage), low, high, handed)
      ensures !unproven && |handed| < limit ==> progress.None?
    {
      unproven := true;
      var at, out, cut;
      at, out, cut, progress := WalkRange(policy, from, high, limit, pageSize, metadataOnly, keepWalk || pending == [],
                                          keepWalk, start, st);
      handed := out.candidates;
      BandCount(low, high, handed);
      assert out.candidates != [] ==> out.candidates[0] in out.candidates;
      if cut {
        return;
      }
      ghost var x := At();
      WithinOn(old(At()), x, policy, first, from - 1, ToSet(pending));
      handed, unproven, progress := Conclude(policy, low, first, high, limit, pageSize, metadataOnly, from, pending,
                                             keepWalk, at, out, progress);
      BandCount(low, high, handed);
      ThenOn(old(At()), x, At());
    }

    /** One call of the gap scan over the band [low, high].  When it is not `unproven`, it has handed out all that is
        wanted down to `first`, which is `low` unless a finished record did not reach as far. */
    method GapRows(policy: string, low: int, high: int, limit: nat, pageSize: nat, metadataOnly: bool)
      returns (handed: seq<int>, unproven: bool, progress: Option<Scan>, ghost first: int)
      requires Opened() && policy == state.policy && low == LowEnd(state) && low <= high < store.world.nextId
      requires 0 < limit && 0 < pageSize
      modifies this
      ensures Valid() && Then(old(At()), At()) && Saveable(At(), policy, low, high, progress)
      ensures Descending(handed) && (forall id :: id in handed ==> low <= id <= high)
      ensures ReadFrom(state, first)
      ensures !unproven ==> Within(At(), policy, first, high, ToSet(handed))
      ensures Holds(progress, handed)
      ensures progress.Some? ==> progress.value.below <= StartsAt(state.read.taken, high)
      ensures unproven && Goes(state.read.taken, high, old(schedule)) ==> progress.Some?
      ensures !unproven && !state.read.taken.Done? ==> |handed| < limit
      ensures unproven && old(schedule) == [] && !state.read.taken.Done? ==>
        |Waiting(state.read.taken, low, high)| < limit ==> Lowered(progress, state.read.taken, low, high)
      ensures old(CutAtOnce(low, high)) ==> unproven
      ensures old(Finished(low, high)) ==> handed == []
      ensures Quiet(old(schedule)) && unproven ==> store.coverage == old(store.coverage)
      ensures old(schedule) == [] && high - low + 1 < limit ==>
        !unproven && |handed| < limit && (old(Resumes(high)) ==> forall id :: id in handed ==> old(Walked(policy, id)))
      ensures Quiet(old(schedule)) && Mine(old(store), old(state)) && !unproven && |handed| < limit ==>
        BandDone(At(), old(store.coverage), low, high, handed) && progress.None?
    {
      unproven := true;
      var from, pending, first', keepWalk, st, at, cut;
      from, pending, first', keepWalk, st, at, cut, progress :=
        Resume(policy, low, high, limit, pageSize, metadataOnly);
      handed, first := st.candidates, first';
      ghost var x := At();
      if !cut {
        handed, unproven, progress := WalkOut(policy, low, first', high, limit, pageSize, metadataOnly, from, pending,
                                              keepWalk, at, st);
        ThenOn(old(At()), x, At());
      }
    }

    /** A call and what it saves when it ends. */
    method Scan(policy: string, low: int, high: int, limit: nat, pageSize: nat, metadataOnly: bool)
      returns (handed: seq<int>)
      requires Opened() && policy == state.policy && low == LowEnd(state) && low <= high < store.world.nextId
      requires 0 < limit && 0 < pageSize
      modifies this
      ensures Valid() && Then(old(At()), At())
      ensures Descending(handed) && (forall id :: id in handed ==> low <= id <= high)
      ensures old(Alone(high)) && old(CutAtOnce(low, high)) ==>
        LeavesWalk(store, policy, low, high, state.read.taken.below) && store.coverage == old(store.coverage)
      ensures Live(old(store), old(state)) && Quiet(old(schedule)) && Goes(state.read.taken, high, old(schedule)) ==>
        || BandDone(At(), old(store.coverage), low, high, handed)
        || (LeavesOff(At(), old(store.coverage), low, high, handed)
             && BandScan(At()).below <= StartsAt(state.read.taken, high))
      ensures Live(old(store), old(state)) && old(schedule) == [] && !state.read.taken.Done? ==>
        |Waiting(state.read.taken, low, high)| < limit ==>
          || BandDone(At(), old(store.coverage), low, high, handed)
          || Lowered(Some(BandScan(At())), state.read.taken, low, high)
      ensures Live(old(store), old(state)) && old(schedule) == [] && high - low + 1 < limit ==>
        && BandDone(At(), old(store.coverage), low, high, handed)
        && (old(Resumes(high)) ==> forall id :: id in handed ==> old(Walked(policy, id)))
      ensures old(Finished(low, high)) ==> handed == []
    {
      var unproven, progress;
      ghost var first;
      handed, unproven, progress, first := GapRows(policy, low, high, limit, pageSize, metadataOnly);
      if progress.Some? {
        ghost var x := At();
        var _ := SaveWalk(policy, low, high, progress.value);
        ThenOn(old(At()), x, At());
      }
    }

    /** What a pass that nothing disturbs, with a budget above its range, has done to the store: all that is still
        wanted in its band was handed out, and the certificate goes up to the oldest row of that. */
    static ghost predicate Certifies(s: Store, t: Store, policy: string, high: int, lowFirst: bool, handed: seq<int>)
      requires s.floor <= high
    {
      var ranges := GapRanges(Some(Range(s.floor, high)), CHUNK_POLICY_REVISION, policy, s.coverage);
      if ranges == [] then handed == [] && t == s
      else
        var band := if lowFirst then ranges[|ranges| - 1] else ranges[0];
        && t.coverage == Some(CoverageValue(s.coverage, band.low, Through(band.high, handed), policy))
        && WantedWithin(t.world, policy, band.low, band.high, ToSet(handed))
    }

    /** One automatic pass: it reads the cursor's ends, the certificate and the records one after the other, and scans a
        band the certificate leaves open.  Undisturbed, and with records level with the bands, it lets no row slip. */
    method Pass(policy: string, high: int, lowFirst: bool, limit: nat, pageSize: nat, metadataOnly: bool)
      returns (handed: seq<int>)
      requires Valid() && store.floor <= high < store.world.nextId && 0 < limit && 0 < pageSize
      requires forall e :: Own(policy, e) ==> allowed(e)
      modifies this
      ensures Valid() && EpochKept(old(store), store)
      ensures Descending(handed) && (forall id :: id in handed ==> old(store.floor) <= id <= high)
      ensures Quiet(old(schedule)) && LevelStore(old(store), policy) ==> store.world.slipped == old(store.world.slipped)
      ensures old(schedule) == [] && high - old(store.floor) + 1 < limit ==>
        Certifies(old(store), store, policy, high, lowFirst, handed)
    {
      handed := [];
      var floor := store.floor;
      var _ := Turn();
      var coverage := store.coverage;
      var ranges := GapRanges(Some(Range(floor, high)), CHUNK_POLICY_REVISION, policy, coverage);
      if ranges == [] {
        return;
      }
      var band := if lowFirst then ranges[|ranges| - 1] else ranges[0];
      assert Covers(store.world, coverage);
      BandBounds(floor, high, policy, coverage, band);
      ghost var s, m := store, schedule;
      var ready := OpenBand(IsLow(coverage, policy, band), policy, floor, coverage);
      EpochOn(old(store), s, store);
      if ready {
        s := store;
        handed := Scan(policy, band.low, band.high, limit, pageSize, metadataOnly);
        EpochOn(old(store), s, store);
      }
    }

    /** The records of the band, with the others coming before each read. */
    method OpenBand(low: bool, policy: string, floor: int, coverage: Option<Coverage>) returns (ready: bool)
      requires Valid() && floor in store.past.floors && coverage in store.past.covers
      requires low ==> coverage.Some? && coverage.value.policy == policy && floor < coverage.value.first
      requires forall e :: Own(policy, e) ==> allowed(e)
      modifies this
      ensures Valid() && EpochKept(old(store), store)
      ensures ready ==>
        Opened() && state.Lower? == low && state.policy == policy
        && state.read == Read(floor, coverage, state.read.taken)
      ensures Quiet(old(schedule)) ==>
        Quiet(schedule) && store.world == old(store.world) && store.coverage == old(store.coverage) && ready
          && Alive(At())
      ensures old(schedule) == [] ==> schedule == []
      ensures Quiet(old(schedule)) && LevelStore(old(store), policy) ==>
        (floor == old(store.floor) && coverage == old(store.coverage) ==> Level(state))
    {
      var _ := Turn();
      ghost var s := store;
      OpenUpper(policy, floor, coverage);
      EpochOn(old(store), s, store);
      ready := true;
      if low {
        s := store;
        var _ := Turn();
        EpochOn(old(store), s, store);
        s := store;
        ready := OpenLower();
        EpochOn(old(store), s, store);
      }
    }
  }
}
