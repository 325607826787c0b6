/**
  Budgeted tail selection: walk the rows from the newest back, charge each with the stubs its missing tool
  results will need, refund the results of a turn that does not fit, and stop.
 */
module TailPlan {
  datatype Role = User | Assistant | Tool | System
  datatype Row = Row(role: Role, callId: string, calls: seq<string>, body: string)

  /** The caller's counters and policies. */
  datatype Policy = Policy(count: Row -> nat, countAll: seq<Row> -> nat, stub: string -> Row, droppable: Row -> bool)

  predicate IsTurn(row: Row) {
    row.role == Assistant && row.calls != []
  }

  // ---- calls without a result --------------------------------------------

  /** Each call occurrence takes one result with its id; those left over are missing.  Calls without an id are not
      paired. */
  function Unmatched(calls: seq<string>, results: multiset<string>): multiset<string> {
    if calls == [] then results
    else
      var left, id := Unmatched(calls[..|calls| - 1], results), calls[|calls| - 1];
      if id != "" && left[id] > 0 then left[id := left[id] - 1] else left
  }

  function Missing(calls: seq<string>, results: multiset<string>): seq<string> {
    if calls == [] then []
    else
      var id := calls[|calls| - 1];
      Missing(calls[..|calls| - 1], results)
      + if id == "" || Unmatched(calls[..|calls| - 1], results)[id] > 0 then [] else [id]
  }

  lemma {:induction false} UnmatchedCount(calls: seq<string>, results: multiset<string>, id: string)
    requires id != ""
    ensures Unmatched(calls, results)[id] == if multiset(calls)[id] < results[id]
      then results[id] - multiset(calls)[id] else 0
  {
    if calls != [] {
      UnmatchedCount(calls[..|calls| - 1], results, id);
      CountLast(calls, id);
    }
  }

  lemma CountLast(calls: seq<string>, id: string)
    requires calls != []
    ensures multiset(calls)[id] == multiset(calls[..|calls| - 1])[id] + if calls[|calls| - 1] == id then 1 else 0
  {
    assert calls == calls[..|calls| - 1] + [calls[|calls| - 1]];
  }

  /** As many stubs per id as it has calls beyond its results. */
  lemma {:induction false} MissingCount(calls: seq<string>, results: multiset<string>, id: string)
    requires id != ""
    ensures multiset(Missing(calls, results))[id] == if multiset(calls)[id] > results[id]
      then multiset(calls)[id] - results[id] else 0
  {
    if calls != [] {
      var front := calls[..|calls| - 1];
      MissingCount(front, results, id);
      UnmatchedCount(front, results, id);
      CountLast(calls, id);
      if Missing(calls, results) != Missing(front, results) {
        assert Missing(calls, results)[..|Missing(calls, results)| - 1] == Missing(front, results);
        CountLast(Missing(calls, results), id);
      }
    }
  }

  method MissingIds(calls: seq<string>, results: multiset<string>) returns (missing: seq<string>)
    ensures missing == Missing(calls, results)
  {
    missing := [];
    var left, k := results, 0;
    while k < |calls|
      invariant 0 <= k <= |calls|
      invariant left == Unmatched(calls[..k], results) && missing == Missing(calls[..k], results)
    {
      assert calls[..k + 1][..k] == calls[..k];
      if calls[k] != "" {
        if left[calls[k]] > 0 {
          left := left[calls[k] := left[calls[k]] - 1];
        } else {
          missing := missing + [calls[k]];
        }
      }
      k := k + 1;
    }
    assert calls[..k] == calls;
  }

  // ---- the cost, from scratch --------------------------------------------

  /** The end of the run of tool rows that starts at `i`. */
  function RunEnd(rows: seq<Row>, i: nat): (end: nat)
    requires i <= |rows|
    ensures i <= end <= |rows|
    ensures forall k :: i <= k < end ==> rows[k].role == Tool
    ensures end < |rows| ==> rows[end].role != Tool
    decreases |rows| - i
  {
    if i < |rows| && rows[i].role == Tool then RunEnd(rows, i + 1) else i
  }

  function ResultIds(rows: seq<Row>): multiset<string> {
    if rows == [] then multiset{} else ResultIds(rows[..|rows| - 1]) + multiset{rows[|rows| - 1].callId}
  }

  function Stubs(p: Policy, ids: seq<string>): seq<Row> {
    seq(|ids|, k requires 0 <= k < |ids| => p.stub(ids[k]))
  }

  function StubCost(p: Policy, missing: seq<string>): nat {
    if missing == [] then 0 else p.countAll(Stubs(p, missing))
  }

  /** A row's tokens, and for a turn one stub per call occurrence unmatched in its own result group. */
  function Charge(p: Policy, row: Row, results: seq<Row>): nat {
    p.count(row) + if IsTurn(row) then StubCost(p, Missing(row.calls, ResultIds(results))) else 0
  }

  function Cost(p: Policy, rows: seq<Row>, s: nat): nat
    requires s <= |rows|
    decreases |rows| - s
  {
    if s == |rows| then 0 else Charge(p, rows[s], rows[s + 1..RunEnd(rows, s + 1)]) + Cost(p, rows, s + 1)
  }

  /** Tool rows cost their tokens and nothing more, so what a rejected turn's results cost is their sum. */
  lemma {:induction false} ToolRunCost(p: Policy, rows: seq<Row>, s: nat, end: nat)
    requires s <= end <= |rows| && (forall k :: s <= k < end ==> rows[k].role == Tool)
    ensures Cost(p, rows, s) == Sum(p, rows[s..end]) + Cost(p, rows, end)
    decreases end - s
  {
    if s < end {
      ToolRunCost(p, rows, s + 1, end);
      SumFirst(p, rows[s], rows[s + 1..end]);
      assert rows[s..end] == [rows[s]] + rows[s + 1..end];
    } else {
      assert rows[s..end] == [];
    }
  }

  function Sum(p: Policy, rows: seq<Row>): nat {
    if rows == [] then 0 else Sum(p, rows[..|rows| - 1]) + p.count(rows[|rows| - 1])
  }

  lemma {:induction false} SumFirst(p: Policy, first: Row, rest: seq<Row>)
    ensures Sum(p, [first] + rest) == p.count(first) + Sum(p, rest)
  {
    if rest == [] {
      assert [first] + rest == [first];
    } else {
      SumFirst(p, first, rest[..|rest| - 1]);
      assert ([first] + rest)[..|rest|] == [first] + rest[..|rest| - 1];
    }
  }

  // ---- the selection -----------------------------------------------------

  /** What each tail costs, from its start. */
  ghost predicate Tally(p: Policy, rows: seq<Row>, costs: seq<nat>) {
    |costs| == |rows| + 1 && (forall u: nat {:trigger Cost(p, rows, u)} :: u <= |rows| ==> costs[u] == Cost(p, rows, u))
  }

  /** The first row, going back, at which the tail would exceed the cap. */
  ghost predicate FirstOver(costs: seq<nat>, cap: int, anchor: nat, t: nat) {
    && t < |costs| - 1 && anchor + costs[t] > cap
    && (forall u :: t < u < |costs| - 1 ==> anchor + costs[u] <= cap)
  }

  /** Right before the tail from `s` on, the row does not fit. */
  ghost predicate Rejects(p: Policy, rows: seq<Row>, cap: int, anchor: nat, s: nat, v: nat)
    requires s <= |rows| && v < |rows|
  {
    anchor + Cost(p, rows, s) + Charge(p, rows[v], rows[s..RunEnd(rows, s)]) > cap
  }

  /** The row is passed over: it can be dropped, does not fit, and is no turn. */
  ghost predicate PassedOver(p: Policy, rows: seq<Row>, cap: int, anchor: nat, s: nat, v: nat)
    requires s <= |rows| && v < |rows|
  {
    p.droppable(rows[v]) && !IsTurn(rows[v]) && Rejects(p, rows, cap, anchor, s, v)
  }

  ghost predicate AllPassed(p: Policy, rows: seq<Row>, cap: int, anchor: nat, s: nat, from: nat, t: nat)
    requires s <= |rows| && t < |rows|
  {
    forall v :: from <= v <= t ==> PassedOver(p, rows, cap, anchor, s, v)
  }

  /** A turn before the tail does not fit, and all rows in between are passed over. */
  ghost predicate TurnRejected(p: Policy, rows: seq<Row>, cap: int, anchor: nat, t: nat, u: nat)
    requires t < |rows|
  {
    && u <= t && IsTurn(rows[u]) && Rejects(p, rows, cap, anchor, t + 1, u)
    && AllPassed(p, rows, cap, anchor, t + 1, u + 1, t)
  }

  /** Where a cut tail begins: past the first row that does not fit, and past the tool rows after it exactly when a turn
      is rejected whose results they would be. */
  ghost predicate StopsAt(p: Policy, rows: seq<Row>, costs: seq<nat>, cap: int, anchor: nat, s: nat, t: nat) {
    && |costs| == |rows| + 1 && FirstOver(costs, cap, anchor, t)
    && s == if exists u: nat :: TurnRejected(p, rows, cap, anchor, t, u) then RunEnd(rows, t + 1) else t + 1
  }

  /** The rows from `index` up to the first that did not fit have been passed over, or a rejected turn took the tool
      rows at the old end with it. */
  ghost predicate Passes(p: Policy, rows: seq<Row>, costs: seq<nat>, cap: int, anchor: nat, s: nat, index: nat, t: nat)
  {
    && |costs| == |rows| + 1 && FirstOver(costs, cap, anchor, t) && index <= t + 1
    && (|| (s == t + 1 && AllPassed(p, rows, cap, anchor, s, index, t))
        || (s == RunEnd(rows, t + 1) && exists u: nat :: TurnRejected(p, rows, cap, anchor, t, u)))
  }

  /** Kept so far: everything from `s` on.  Nothing was rejected yet, or the tail first exceeds the cap at `t`. */
  ghost predicate Keeps(p: Policy, rows: seq<Row>, costs: seq<nat>, cap: int, anchor: nat, s: nat, index: nat,
                        over: bool, t: nat)
  {
    && |costs| == |rows| + 1 && s <= |rows| && (s < |rows| ==> anchor + costs[s] <= cap)
    && (if over then t < |rows| && Passes(p, rows, costs, cap, anchor, s, index, t)
        else s == index && (forall u :: s <= u < |rows| ==> anchor + costs[u] <= cap))
  }

  /** No turn is rejected where the walk ends at a row that fits, or cannot be passed over, or at the beginning. */
  lemma NoTurnRejected(p: Policy, rows: seq<Row>, cap: int, anchor: nat, t: nat, index: nat)
    requires t < |rows| && index <= t + 1
    requires AllPassed(p, rows, cap, anchor, t + 1, index, t)
    requires index == 0 || !Rejects(p, rows, cap, anchor, t + 1, index - 1)
      || (!p.droppable(rows[index - 1]) && !IsTurn(rows[index - 1]))
    ensures forall u: nat :: !TurnRejected(p, rows, cap, anchor, t, u)
  {
    forall u: nat ensures !TurnRejected(p, rows, cap, anchor, t, u) {
      if u < index - 1 {
        assert AllPassed(p, rows, cap, anchor, t + 1, u + 1, t) ==> PassedOver(p, rows, cap, anchor, t + 1, index - 1);
      } else if index <= u <= t {
        assert PassedOver(p, rows, cap, anchor, t + 1, u);
      }
    }
  }

  /** The tool rows at the old end of what is kept. */
  method OwnResults(rows: seq<Row>, kept: seq<nat>, ghost s: nat) returns (start: nat)
    requires s <= |rows| && |kept| == |rows| - s && (forall k :: 0 <= k < |kept| ==> kept[k] == |rows| - 1 - k)
    ensures start <= |kept| && |rows| - start == RunEnd(rows, s)
  {
    start := |kept|;
    while start > 0 && rows[kept[start - 1]].role == Tool
      invariant 0 <= start <= |kept|
      invariant RunEnd(rows, s) == RunEnd(rows, |rows| - start)
      invariant forall k :: s <= k < |rows| - start ==> rows[k].role == Tool
    {
      start := start - 1;
    }
  }

  method RowsAt(rows: seq<Row>, kept: seq<nat>, start: nat, ghost s: nat) returns (run: seq<Row>)
    requires s <= |rows| && |kept| == |rows| - s && (forall k :: 0 <= k < |kept| ==> kept[k] == |rows| - 1 - k)
      && start <= |kept|
    ensures run == rows[s..|rows| - start]
  {
    run := [];
    var k := |kept|;
    while k > start
      invariant start <= k <= |kept| && run == rows[s..|rows| - k]
    {
      k := k - 1;
      run := run + [rows[kept[k]]];
    }
  }

  ghost predicate Suffix(rows: seq<Row>, kept: seq<nat>, s: nat) {
    s <= |rows| && |kept| == |rows| - s && (forall k :: 0 <= k < |kept| ==> kept[k] == |rows| - 1 - k)
  }

  /** What a row would add, and where its own results begin among the kept rows. */
  method RowTokens(rows: seq<Row>, kept: seq<nat>, index: nat, p: Policy, ghost s: nat)
    returns (tokens: nat, start: nat)
    requires Suffix(rows, kept, s) && index < s
    ensures tokens == Charge(p, rows[index], rows[s..RunEnd(rows, s)])
    ensures |rows| - start == if IsTurn(rows[index]) then RunEnd(rows, s) else s
    ensures start <= |kept| && (forall k :: s <= k < |rows| - start ==> rows[k].role == Tool)
  {
    var row := rows[index];
    tokens, start := p.count(row), |kept|;
    if IsTurn(row) {
      start := OwnResults(rows, kept, s);
      var run := RowsAt(rows, kept, start, s);
      var missing := MissingIds(row.calls, ResultIds(run));
      tokens := tokens + StubCost(p, missing);
    }
  }

  /** Give up a rejected turn's kept results and refund them. */
  method Refund(rows: seq<Row>, kept: seq<nat>, start: nat, charged: nat, p: Policy, ghost costs: seq<nat>,
                ghost s: nat)
    returns (kept': seq<nat>, charged': nat)
    requires Suffix(rows, kept, s) && start <= |kept| && Tally(p, rows, costs) && charged == costs[s]
    requires forall k :: s <= k < |rows| - start ==> rows[k].role == Tool
    ensures Suffix(rows, kept', |rows| - start) && charged' == costs[|rows| - start] <= charged
  {
    ToolRunCost(p, rows, s, |rows| - start);
    var run := RowsAt(rows, kept, start, s);
    charged' := charged - Sum(p, run);
    kept' := kept[..start];
  }

  /** One step back on a tail that nothing was cut from. */
  lemma StepCost(p: Policy, rows: seq<Row>, index: nat)
    requires index < |rows|
    ensures Cost(p, rows, index) == Charge(p, rows[index], rows[index + 1..RunEnd(rows, index + 1)])
      + Cost(p, rows, index + 1)
  {
  }

  /** The row at `index` did not fit: it is no turn and those after it were passed over, or a turn took the tool
      rows. */
  ghost predicate Refused(p: Policy, rows: seq<Row>, costs: seq<nat>, cap: int, anchor: nat, s: nat, index: nat, t: nat)
  {
    && |costs| == |rows| + 1 && FirstOver(costs, cap, anchor, t) && index <= t
    && (|| (s == RunEnd(rows, t + 1) && exists u: nat :: TurnRejected(p, rows, cap, anchor, t, u))
        || (s == t + 1 && !IsTurn(rows[index]) && Rejects(p, rows, cap, anchor, s, index)
            && AllPassed(p, rows, cap, anchor, s, index + 1, t)))
  }

  /** Where the first row that does not fit is, once the row at `index` did not. */
  function FirstRefused(over: bool, t: nat, index: nat): nat {
    if over then t else index
  }

  lemma OverStep(p: Policy, rows: seq<Row>, costs: seq<nat>, cap: int, anchor: nat, before: nat, s: nat, index: nat,
                 over: bool, t: nat)
    requires Tally(p, rows, costs) && index < before <= |rows|
    requires Keeps(p, rows, costs, cap, anchor, before, index + 1, over, t)
    requires Rejects(p, rows, cap, anchor, before, index)
    requires s == if IsTurn(rows[index]) then RunEnd(rows, before) else before
    ensures Refused(p, rows, costs, cap, anchor, s, index, FirstRefused(over, t, index))
  {
    var first := FirstRefused(over, t, index);
    if !over {
      StepCost(p, rows, index);
      assert costs[index] == Cost(p, rows, index) && costs[before] == Cost(p, rows, before);
    }
    assert FirstOver(costs, cap, anchor, first);
    if exists u: nat :: over && TurnRejected(p, rows, cap, anchor, first, u) && before == RunEnd(rows, first + 1) {
      assert RunEnd(rows, before) == before;
    } else {
      assert before == first + 1 && AllPassed(p, rows, cap, anchor, first + 1, index + 1, first);
      assert IsTurn(rows[index]) ==> TurnRejected(p, rows, cap, anchor, first, index);
    }
  }

  /** The walk ends where a refused row cannot be dropped, or a row fits after a gap, or at the beginning. */
  lemma WalkEnds(p: Policy, rows: seq<Row>, costs: seq<nat>, cap: int, anchor: nat, s: nat, index: nat, t: nat)
    requires Refused(p, rows, costs, cap, anchor, s, index, t) && !p.droppable(rows[index])
    ensures StopsAt(p, rows, costs, cap, anchor, s, t)
  {
    if !(s == RunEnd(rows, t + 1) && exists u: nat :: TurnRejected(p, rows, cap, anchor, t, u)) {
      NoTurnRejected(p, rows, cap, anchor, t, index + 1);
    }
  }

  lemma GapEnds(p: Policy, rows: seq<Row>, costs: seq<nat>, cap: int, anchor: nat, s: nat, index: nat, t: nat)
    requires s <= |rows| && Passes(p, rows, costs, cap, anchor, s, index, t)
    requires index == 0 || !Rejects(p, rows, cap, anchor, s, index - 1)
    ensures StopsAt(p, rows, costs, cap, anchor, s, t)
  {
    if !(s == RunEnd(rows, t + 1) && exists u: nat :: TurnRejected(p, rows, cap, anchor, t, u)) {
      NoTurnRejected(p, rows, cap, anchor, t, index);
    }
  }

  /** What is left of the kept rows once a row did not fit. */
  method GiveUp(rows: seq<Row>, kept: seq<nat>, start: nat, charged: nat, p: Policy, ghost costs: seq<nat>,
                ghost s: nat)
    returns (kept': seq<nat>, charged': nat, ghost s': nat)
    requires Suffix(rows, kept, s) && start <= |kept| && Tally(p, rows, costs) && charged == costs[s]
    requires forall k :: s <= k < |rows| - start ==> rows[k].role == Tool
    ensures s' == |rows| - start && Suffix(rows, kept', s') && charged' == costs[s'] <= charged
  {
    kept', charged', s' := kept, charged, |rows| - start;
    if start < |kept| {
      kept', charged' := Refund(rows, kept, start, charged, p, costs, s);
    }
  }

  /** A row does not fit: the walk goes on past it, or ends. */
  method RejectRow(rows: seq<Row>, kept: seq<nat>, charged: nat, start: nat, index: nat, cap: int, anchor: nat,
                   p: Policy, ghost costs: seq<nat>, ghost s: nat, ghost over: bool, ghost t: nat)
    returns (kept': seq<nat>, charged': nat, ghost s': nat, ghost t': nat)
    requires Suffix(rows, kept, s) && Tally(p, rows, costs) && charged == costs[s] && index < s
    requires Keeps(p, rows, costs, cap, anchor, s, index + 1, over, t) && Rejects(p, rows, cap, anchor, s, index)
    requires start <= |kept| && |rows| - start == if IsTurn(rows[index]) then RunEnd(rows, s) else s
    ensures Suffix(rows, kept', s') && charged' == costs[s'] && index <= s'
    ensures if p.droppable(rows[index]) then Keeps(p, rows, costs, cap, anchor, s', index, true, t')
      else (s' < |rows| ==> anchor + costs[s'] <= cap) && StopsAt(p, rows, costs, cap, anchor, s', t')
  {
    kept', charged', s' := GiveUp(rows, kept, start, charged, p, costs, s);
    OverStep(p, rows, costs, cap, anchor, s, s', index, over, t);
    t' := FirstRefused(over, t, index);
    if !p.droppable(rows[index]) {
      WalkEnds(p, rows, costs, cap, anchor, s', index, t');
    }
  }

  /** A row fits, and is kept. */
  lemma FitStep(p: Policy, rows: seq<Row>, costs: seq<nat>, cap: int, anchor: nat, kept: seq<nat>, index: nat, t: nat)
    requires Tally(p, rows, costs) && index < |rows| && Suffix(rows, kept, index + 1)
    requires Keeps(p, rows, costs, cap, anchor, index + 1, index + 1, false, t)
    requires !Rejects(p, rows, cap, anchor, index + 1, index)
    ensures costs[index] == costs[index + 1] + Charge(p, rows[index], rows[index + 1..RunEnd(rows, index + 1)])
    ensures Suffix(rows, kept + [index], index) && Keeps(p, rows, costs, cap, anchor, index, index, false, t)
  {
    StepCost(p, rows, index);
    assert costs[index] == Cost(p, rows, index) && costs[index + 1] == Cost(p, rows, index + 1);
  }

  /** The walk itself: `s` is where what it keeps begins. */
  method Walk(rows: seq<Row>, cap: int, anchor: nat, p: Policy, ghost costs: seq<nat>)
    returns (kept: seq<nat>, charged: nat, ghost s: nat, ghost t: nat)
    requires Tally(p, rows, costs) && costs[|rows|] == 0
    ensures Suffix(rows, kept, s) && charged == costs[s] && (s < |rows| ==> anchor + costs[s] <= cap)
    ensures Keeps(p, rows, costs, cap, anchor, s, 0, false, t) || StopsAt(p, rows, costs, cap, anchor, s, t)
  {
    kept, charged, s, t := [], 0, |rows|, 0;
    var index, gap := |rows|, false;
    ghost var over := false;
    while index > 0
      invariant 0 <= index <= s && Suffix(rows, kept, s) && charged == costs[s]
      invariant Keeps(p, rows, costs, cap, anchor, s, index, over, t) && (gap <==> over)
    {
      index := index - 1;
      var tokens, start := RowTokens(rows, kept, index, p, s);
      assert charged == Cost(p, rows, s);
      if anchor + charged + tokens > cap {
        kept, charged, s, t := RejectRow(rows, kept, charged, start, index, cap, anchor, p, costs, s, over, t);
        if p.droppable(rows[index]) {
          gap, over := true, true;
          continue;
        }
        return;
      }
      if gap {
        GapEnds(p, rows, costs, cap, anchor, s, index + 1, t);
        return;
      }
      FitStep(p, rows, costs, cap, anchor, kept, index, t);
      kept := kept + [index];
      charged := charged + tokens;
      s := index;
    }
    if over {
      GapEnds(p, rows, costs, cap, anchor, s, 0, t);
    }
  }

  ghost predicate CutAt(p: Policy, rows: seq<Row>, cap: int, anchor: nat, s: nat) {
    exists t: nat, costs: seq<nat> :: Tally(p, rows, costs) && StopsAt(p, rows, costs, cap, anchor, s, t)
  }

  /** The selected tail is a contiguous suffix, charged exactly what it costs, within the cap when not empty;
      it is everything when everything fits, and otherwise begins past the first row that does not. */
  method SelectTail(rows: seq<Row>, cap: int, anchor: nat, p: Policy) returns (indexes: seq<nat>, charged: nat)
    ensures |indexes| <= |rows| && (forall k :: 0 <= k < |indexes| ==> indexes[k] == |rows| - |indexes| + k)
    ensures charged == Cost(p, rows, |rows| - |indexes|)
    ensures indexes != [] ==> anchor + charged <= cap
    ensures rows != [] ==> (|indexes| == |rows| <==> anchor + Cost(p, rows, 0) <= cap)
    ensures |indexes| == |rows| || CutAt(p, rows, cap, anchor, |rows| - |indexes|)
  {
    ghost var costs := seq(|rows| + 1, u requires 0 <= u <= |rows| => Cost(p, rows, u));
    assert costs[|rows|] == Cost(p, rows, |rows|);
    var kept;
    ghost var s: nat, t: nat;
    kept, charged, s, t := Walk(rows, cap, anchor, p, costs);
    indexes := seq(|kept|, k requires 0 <= k < |kept| => kept[|kept| - 1 - k]);
    if s > 0 {
      CostDown(p, rows, 0, t);
    }
  }

  lemma {:induction false} CostDown(p: Policy, rows: seq<Row>, i: nat, j: nat)
    requires i <= j <= |rows|
    ensures Cost(p, rows, j) <= Cost(p, rows, i)
    decreases j - i
  {
    if i < j {
      StepCost(p, rows, i);
      CostDown(p, rows, i + 1, j);
    }
  }
}
