/** The pages of rows a gap scan reads, newest first, and what reading one says about the rows between. */
module GapPages {
  import opened GapCoverage
  import opened GapProof

  /** The rows of one query: listed, unpublished ids in [low, below), newest first, at most `take` of them. */
  ghost predicate IsPage(w: World, policy: string, low: int, below: int, take: nat, rows: seq<int>) {
    && |rows| <= take
    && Descending(rows)
    && (forall k :: 0 <= k < |rows| ==> low <= rows[k] < below && Unpublished(w, policy, rows[k]))
    && (forall id :: low <= id < below && Unpublished(w, policy, id) ==>
          id in rows || (|rows| == take && take > 0 && id < rows[take - 1]))
  }

  predicate Descending(rows: seq<int>) {
    forall i, j :: 0 <= i < j < |rows| ==> rows[i] > rows[j]
  }

  lemma DescendingAppend(rows: seq<int>, row: int)
    requires Descending(rows) && (forall id :: id in rows ==> row < id)
    ensures Descending(rows + [row])
  {
    forall i | 0 <= i < |rows|
      ensures row < rows[i]
    {
      assert rows[i] in rows;
    }
  }

  method FetchPage(w: World, policy: string, low: int, below: int, take: nat) returns (rows: seq<int>)
    requires 0 < take
    ensures IsPage(w, policy, low, below, take, rows)
  {
    rows := [];
    var id := below;
    while low < id && |rows| < take
      invariant id <= below && (low <= id || rows == [])
      invariant |rows| <= take && Descending(rows)
      invariant forall k :: 0 <= k < |rows| ==>
        low <= rows[k] < below && id <= rows[k] && Unpublished(w, policy, rows[k])
      invariant forall i :: low <= i < below && id <= i && Unpublished(w, policy, i) ==> i in rows
      invariant |rows| == take ==> rows[take - 1] == id
      decreases id - low
    {
      id := id - 1;
      if Unpublished(w, policy, id) {
        rows := rows + [id];
      }
    }
  }

  /** The saved ids that are still unpublished, newest first. */
  method FetchIds(w: World, ids: seq<int>) returns (rows: seq<int>)
    requires Descending(ids)
    ensures Descending(rows) && |rows| <= |ids|
    ensures forall id :: id in rows <==> id in ids && id in w.messages && id !in w.published
  {
    rows := [];
    for k := 0 to |ids|
      invariant Descending(rows) && |rows| <= k
      invariant forall id :: id in rows <==> id in ids[..k] && id in w.messages && id !in w.published
      invariant forall i, j :: 0 <= i < |rows| && k <= j < |ids| ==> rows[i] > ids[j]
    {
      if ids[k] in w.messages && ids[k] !in w.published {
        rows := rows + [ids[k]];
      }
    }
    assert ids[..|ids|] == ids;
  }

  /** The ids of `saved` in [low, high], newest first. */
  method SortedDown(saved: set<int>, low: int, high: int) returns (ids: seq<int>)
    ensures Descending(ids)
    ensures forall id :: id in ids <==> id in saved && low <= id <= high
  {
    ids := [];
    var id := high + 1;
    while low < id
      invariant Descending(ids)
      invariant forall i :: i in ids <==> i in saved && id <= i <= high && low <= i
      invariant forall k :: 0 <= k < |ids| ==> id <= ids[k]
      decreases id - low
    {
      id := id - 1;
      if id in saved {
        ids := ids + [id];
      }
    }
  }

  function ToSet(ids: seq<int>): set<int> {
    set id | id in ids
  }

  lemma {:induction false} SetSize(ids: seq<int>)
    requires Descending(ids)
    ensures |ToSet(ids)| == |ids|
  {
    if ids == [] {
      assert ToSet(ids) == {};
    } else {
      assert ids == [ids[0]] + ids[1..];
      assert ToSet(ids) == {ids[0]} + ToSet(ids[1..]) && ids[0] !in ids[1..];
      SetSize(ids[1..]);
    }
  }

  lemma PageRow(rows: seq<int>, rest: set<int>, k: nat)
    requires k < |rows| && Descending(rows)
    requires forall i, id :: i in rest && id in rows ==> i < id
    ensures rows[k] in rows && ToSet(rows[k..]) == {rows[k]} + ToSet(rows[k + 1..])
    ensures forall id :: id in rows[k + 1..] || id in rest ==> id < rows[k]
    ensures forall id :: id in rows[..k] ==> id in rows && rows[k] < id
    ensures rows[..k + 1] == rows[..k] + [rows[k]]
  {
    assert rows[k..] == [rows[k]] + rows[k + 1..];
  }

  lemma OldestHanded(handed: seq<int>)
    requires Descending(handed)
    ensures handed != [] ==>
      handed[|handed| - 1] in handed && forall id :: id in handed ==> handed[|handed| - 1] <= id
  {
    if handed != [] {
      assert handed[|handed| - 1] in handed;
      forall id | id in handed ensures handed[|handed| - 1] <= id {
        var k :| 0 <= k < |handed| && handed[k] == id;
      }
    }
  }

  lemma BatchFetched(w: World, policy: string, low: int, high: int, ids: seq<int>, k: nat, end: nat, rows: seq<int>,
                     candidates: set<int>, all: bool)
    requires k < end <= |ids| && Descending(ids)
    requires forall id :: id in rows <==> id in ids[k..end] && id in w.messages && id !in w.published
    requires all ==> WantedWithin(w, policy, low, high, candidates + ToSet(ids[k..]))
    ensures all ==> WantedWithin(w, policy, low, high, candidates + (ToSet(rows) + ToSet(ids[end..])))
    ensures forall i, id :: i in ids[end..] && id in rows ==> i < id
    ensures forall id :: id in rows ==> id in ids && id in ids[..end]
    ensures forall c, id :: c in ids[..k] && id in rows ==> id < c
    ensures forall id :: id in ids[..k] ==> id in ids[..end]
  {
    assert ids[k..] == ids[k..end] + ids[end..];
    assert ids[..end] == ids[..k] + ids[k..end];
  }

  /** The next rows to hand out: the newest saved candidates while there are any, else the next page down. */
  method NextRows(w: World, policy: string, low: int, high: int, take: nat, below: int, replay: seq<int>,
                  complete: bool, ghost candidates: set<int>, ghost live: bool)
    returns (rows: seq<int>, below': int, replay': seq<int>, complete': bool)
    requires 0 < take && below <= high + 1 && Descending(replay) && (replay != [] || !complete)
      && (complete ==> replay == [])
    requires forall id :: id in replay ==> Max(low, below) <= id <= high
    requires live ==> WantedWithin(w, policy, Max(low, below), high, candidates + ToSet(replay))
    ensures |rows| <= take && Descending(rows) && Descending(replay') && below' <= below
      && Max(low, below') <= Max(low, below)
    ensures below' == below || low <= below'
    ensures forall id :: id in rows || id in replay' ==> Max(low, below') <= id <= high
    ensures forall id :: id in rows || id in replay' ==> id in replay || id < below
    ensures forall i, id :: i in replay' && id in rows ==> i < id
    ensures forall id :: id in rows ==> id in replay || Unpublished(w, policy, id)
    ensures live ==> WantedWithin(w, policy, Max(low, below'), high, candidates + ToSet(rows) + ToSet(replay'))
    ensures complete' ==> replay' == []
    ensures live && complete' ==> WantedWithin(w, policy, low, high, candidates + ToSet(rows))
    ensures |replay'| < |replay| || (replay' == replay && (rows != [] || complete'))
    ensures replay' != [] ==> replay != [] && forall id :: id in replay' ==> id in replay
    ensures replay != [] && replay[0] in w.messages && replay[0] !in w.published ==> rows != []
    ensures |rows| + |replay'| + Max(low, below') <= |replay| + Max(low, below)
    ensures replay == [] ==> (complete' && |rows| < take) || (!complete' && below' < below)
    ensures replay != [] ==> below' == below && !complete' && |rows| + |replay'| <= |replay|
  {
    below', replay', complete' := below, replay, complete;
    if replay != [] {
      var n := if take < |replay| then take else |replay|;
      rows := FetchIds(w, replay[..n]);
      ReplayFetched(w, policy, Max(low, below), high, candidates, replay, n, rows, live);
      assert replay[..n][0] == replay[0];
      replay' := replay[n..];
    } else {
      assert candidates + ToSet(replay) == candidates;
      rows := FetchPage(w, policy, low, Min(high, below - 1) + 1, take);
      RangeFetched(w, policy, low, below, high, take, rows, candidates, live);
      SpanCount(rows, low, below);
      complete' := |rows| < take;
      if rows != [] {
        SpanCount(rows, rows[|rows| - 1], below);
        below' := rows[|rows| - 1];
      }
    }
  }

  /** Different ids in a range are no more than the range is wide. */
  lemma {:induction false} SpanCount(rows: seq<int>, low: int, below: int)
    requires Descending(rows) && (forall k :: 0 <= k < |rows| ==> low <= rows[k] < below)
    ensures rows == [] || |rows| <= below - low
  {
    if |rows| > 1 {
      SpanCount(rows[1..], low, rows[0]);
    }
  }

  lemma ReplayFetched(w: World, policy: string, first: int, high: int, candidates: set<int>, replay: seq<int>, n: nat,
                      rows: seq<int>, live: bool)
    requires n <= |replay| && Descending(replay)
    requires live ==> WantedWithin(w, policy, first, high, candidates + ToSet(replay))
    requires forall id :: id in rows <==> id in replay[..n] && id in w.messages && id !in w.published
    ensures live ==> WantedWithin(w, policy, first, high, candidates + ToSet(rows) + ToSet(replay[n..]))
    ensures forall i, id :: i in replay[n..] && id in rows ==> i < id
    ensures forall id :: id in rows || id in replay[n..] ==> id in replay
  {
    assert replay == replay[..n] + replay[n..];
  }

  lemma RangeFetched(w: World, policy: string, low: int, below: int, high: int, take: nat, rows: seq<int>,
                     candidates: set<int>, live: bool)
    requires below <= high + 1 && 0 < take && IsPage(w, policy, low, Min(high, below - 1) + 1, take, rows)
    requires live ==> WantedWithin(w, policy, Max(low, below), high, candidates)
    ensures var next := if rows == [] then below else rows[|rows| - 1];
            && (live ==> WantedWithin(w, policy, Max(low, next), high, candidates + ToSet(rows)))
            && next <= below && (rows != [] ==> low <= next) && (forall id :: id in rows ==> next <= id < below)
    ensures live && |rows| < take ==> WantedWithin(w, policy, low, high, candidates + ToSet(rows))
  {
  }

  lemma BetweenNeighbours(rows: seq<int>, k: nat, id: int)
    requires Descending(rows) && k < |rows| && rows[k] < id && (k > 0 ==> id < rows[k - 1])
    ensures id !in rows
  {
    forall j | 0 <= j < |rows| ensures rows[j] != id {
    }
  }

  /** Between two neighbouring rows of a page nothing is needed, then or later. */
  lemma BetweenRows(live: bool, w: World, v: World, policy: string, from: int, bound: int, take: nat, rows: seq<int>,
                    k: nat, high: int, ids: set<int>)
    requires IsPage(w, policy, from, bound, take, rows) && k < |rows| && bound <= high + 1 && high < w.nextId
    requires live ==>
      Shrinks(w, v) && WantedWithin(v, policy, if k == 0 then bound else rows[k - 1], high, ids)
    ensures from <= rows[k] < if k == 0 then bound else rows[k - 1]
    ensures live ==> WantedWithin(v, policy, rows[k], high, ids + {rows[k]})
  {
    var top := if k == 0 then bound else rows[k - 1];
    forall id | rows[k] < id < top ensures !Wanted(w, policy, id) {
      BetweenNeighbours(rows, k, id);
    }
    if live {
      WithinDown(w, v, policy, rows[k], top, high, ids);
    }
  }

  lemma WithinDown(w: World, v: World, policy: string, row: int, top: int, high: int, ids: set<int>)
    requires Shrinks(w, v) && top <= high + 1 && high < w.nextId && WantedWithin(v, policy, top, high, ids)
    requires forall id :: row < id < top ==> !Wanted(w, policy, id)
    ensures WantedWithin(v, policy, row, high, ids + {row})
  {
  }

  lemma PageExhausted(w: World, v: World, policy: string, from: int, bound: int, take: nat, rows: seq<int>,
                      high: int, ids: set<int>)
    requires IsPage(w, policy, from, bound, take, rows) && Shrinks(w, v) && |rows| < take && bound <= high + 1
    requires high < w.nextId && WantedWithin(v, policy, if rows == [] then bound else rows[|rows| - 1], high, ids)
    ensures WantedWithin(v, policy, from, high, ids)
  {
    OldestHanded(rows);
    forall id | from <= id <= high && Wanted(v, policy, id) ensures id in ids {
      assert Wanted(w, policy, id);
      assert id < bound ==> id in rows;
    }
  }
}
