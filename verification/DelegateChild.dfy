/**
  Storing a delegated child's turns: resuming after a remembered boundary, after the stored prefix, after
  the stored tail, and, when none of these is found, by counting identities.  Rows are their compare
  identities; digests of identities are taken as injective.
 */
module DelegateChild {
  import opened Wrappers

  const AnchorRows: nat := 3

  // ---- searching for a boundary ------------------------------------------

  predicate OccursAt<T(==)>(rows: seq<T>, anchor: seq<T>, i: nat) {
    i + |anchor| <= |rows| && rows[i..i + |anchor|] == anchor
  }

  function Ends<T(==)>(rows: seq<T>, anchor: seq<T>, n: nat): (ends: seq<nat>)
    ensures forall e: nat :: e in ends <==> |anchor| <= e < n + |anchor| && OccursAt(rows, anchor, e - |anchor|)
    ensures forall i :: 0 <= i < |ends| ==> ends[i] < n + |anchor|
    ensures forall i, j :: 0 <= i < j < |ends| ==> ends[i] < ends[j]
  {
    if n == 0 then []
    else
      var ends := Ends(rows, anchor, n - 1);
      if OccursAt(rows, anchor, n - 1) then ends + [n - 1 + |anchor|] else ends
  }

  /** Where the anchor ends, when it occurs exactly once. */
  function UniqueEnd<T(==)>(rows: seq<T>, anchor: seq<T>): (end: Option<nat>)
    ensures end.Some? ==> |anchor| <= end.value <= |rows| && OccursAt(rows, anchor, end.value - |anchor|)
  {
    if anchor == [] then None
    else
      var ends := Ends(rows, anchor, if |rows| < |anchor| then 0 else |rows| - |anchor| + 1);
      assert |ends| == 1 ==> ends[0] in ends;
      if |ends| == 1 then Some(ends[0]) else None
  }

  ghost predicate OnlyAt<T>(rows: seq<T>, anchor: seq<T>, i: nat) {
    OccursAt(rows, anchor, i) && (forall j: nat :: OccursAt(rows, anchor, j) ==> j == i)
  }

  /** An answer is the one place the anchor occurs, and there is an answer whenever there is one such place. */
  lemma UniqueEndMeans<T>(rows: seq<T>, anchor: seq<T>)
    ensures var end := UniqueEnd(rows, anchor);
      && (end.Some? ==> anchor != [] && OnlyAt(rows, anchor, end.value - |anchor|))
      && (forall i: nat :: anchor != [] && OnlyAt(rows, anchor, i) ==> end == Some(i + |anchor|))
  {
    if anchor != [] {
      var ends := Ends(rows, anchor, if |rows| < |anchor| then 0 else |rows| - |anchor| + 1);
      assert forall i: nat :: OccursAt(rows, anchor, i) ==> i + |anchor| in ends;
      assert |ends| > 1 ==> ends[0] < ends[1];
      forall i: nat | OnlyAt(rows, anchor, i) ensures ends == [i + |anchor|] {
        assert i + |anchor| in ends;
        forall k | 0 <= k < |ends| ensures ends[k] == i + |anchor| {
          assert ends[k] in ends && OccursAt(rows, anchor, ends[k] - |anchor|);
        }
      }
    }
  }

  ghost predicate Once<T>(rows: seq<T>, anchor: seq<T>) {
    exists i: nat :: OnlyAt(rows, anchor, i)
  }

  lemma OnceEnd<T>(rows: seq<T>, anchor: seq<T>)
    ensures anchor != [] ==> (Once(rows, anchor) <==> UniqueEnd(rows, anchor).Some?)
    ensures UniqueEnd(rows, anchor).Some? ==>
      anchor != [] && OnlyAt(rows, anchor, UniqueEnd(rows, anchor).value - |anchor|)
  {
    UniqueEndMeans(rows, anchor);
  }

  // ---- the remembered boundary -------------------------------------------

  function Tail<T>(rows: seq<T>, n: nat): (tail: seq<T>)
    ensures |tail| <= |rows| && rows[|rows| - |tail|..] == tail
  {
    if |rows| <= n then rows else rows[|rows| - n..]
  }

  /** The last rows when they occur once, else the whole view. */
  function Boundary<T(==)>(view: seq<T>): seq<T> {
    var tail := Tail(view, AnchorRows);
    if UniqueEnd(view, tail).Some? then tail else view
  }

  lemma BoundaryEnds<T>(view: seq<T>)
    ensures |Boundary(view)| <= |view| && OccursAt(view, Boundary(view), |view| - |Boundary(view)|)
  {
    assert view[0..|view|] == view;
  }

  /** Resolving a boundary on any extension of its view gives no answer or exactly the old end, and it
      gives no answer exactly when the boundary occurs a second time (or the view was empty). */
  lemma ResolvesExactly<T>(view: seq<T>, more: seq<T>)
    ensures var end := UniqueEnd(view + more, Boundary(view));
      && (end.None? || end == Some(|view|))
      && (end.None? <==>
        view == [] || exists j: nat :: j != |view| - |Boundary(view)| && OccursAt(view + more, Boundary(view), j))
  {
    var anchor, grown := Boundary(view), view + more;
    BoundaryEnds(view);
    var at := |view| - |anchor|;
    assert grown[at..at + |anchor|] == view[at..at + |anchor|];
    assert OccursAt(grown, anchor, at);
    UniqueEndMeans(grown, anchor);
    if view != [] && !(exists j: nat :: j != at && OccursAt(grown, anchor, j)) {
      assert OnlyAt(grown, anchor, at);
    }
  }

  // ---- the counted fallback ----------------------------------------------

  function Max(a: nat, b: nat): nat {
    if a < b then b else a
  }

  /** Rows of the view beyond those already stored, in order. */
  method CountedSuffix<T(==)>(view: seq<T>, stored: multiset<T>) returns (suffix: seq<T>)
    ensures forall x :: (stored + multiset(suffix))[x] == Max(stored[x], multiset(view)[x])
    ensures suffix == Beyond(view, stored)
  {
    suffix := [];
    var remaining, n := stored, 0;
    while n < |view|
      invariant 0 <= n <= |view|
      invariant remaining == Left(view[..n], stored) && suffix == Beyond(view[..n], stored)
    {
      assert view[..n + 1][..n] == view[..n];
      if remaining[view[n]] > 0 {
        remaining := remaining[view[n] := remaining[view[n]] - 1];
      } else {
        suffix := suffix + [view[n]];
      }
      n := n + 1;
    }
    assert view[..n] == view;
    BeyondCounts(view, stored);
  }

  function Left<T(==)>(view: seq<T>, stored: multiset<T>): multiset<T> {
    if view == [] then stored
    else
      var left, x := Left(view[..|view| - 1], stored), view[|view| - 1];
      if left[x] > 0 then left[x := left[x] - 1] else left
  }

  function Beyond<T(==)>(view: seq<T>, stored: multiset<T>): seq<T> {
    if view == [] then []
    else
      var x := view[|view| - 1];
      Beyond(view[..|view| - 1], stored) + if Left(view[..|view| - 1], stored)[x] > 0 then [] else [x]
  }

  lemma {:induction false} BeyondCount<T>(view: seq<T>, stored: multiset<T>, x: T)
    ensures Left(view, stored)[x] == if multiset(view)[x] < stored[x] then stored[x] - multiset(view)[x] else 0
    ensures stored[x] + multiset(Beyond(view, stored))[x] == Max(stored[x], multiset(view)[x])
  {
    if view != [] {
      var front, last := view[..|view| - 1], view[|view| - 1];
      BeyondCount(front, stored, x);
      assert view == front + [last];
      assert multiset(view) == multiset(front) + multiset{last};
    }
  }

  lemma BeyondCounts<T>(view: seq<T>, stored: multiset<T>)
    ensures forall x :: (stored + multiset(Beyond(view, stored)))[x] == Max(stored[x], multiset(view)[x])
  {
    forall x ensures (stored + multiset(Beyond(view, stored)))[x] == Max(stored[x], multiset(view)[x]) {
      BeyondCount(view, stored, x);
    }
  }

  /** Counting the same view again adds nothing. */
  lemma CountedTwice<T>(view: seq<T>, stored: multiset<T>)
    ensures Beyond(view, stored + multiset(Beyond(view, stored))) == []
  {
    BeyondCounts(view, stored);
    NothingBeyond(view, stored + multiset(Beyond(view, stored)));
  }

  lemma {:induction false} NothingBeyond<T>(view: seq<T>, stored: multiset<T>)
    requires forall x :: multiset(view)[x] <= stored[x]
    ensures Beyond(view, stored) == []
  {
    if view != [] {
      var front, x := view[..|view| - 1], view[|view| - 1];
      assert view == front + [x];
      assert multiset(view) == multiset(front) + multiset{x};
      NothingBeyond(front, stored);
      BeyondCount(front, stored, x);
    }
  }

  // ---- resuming ----------------------------------------------------------

  function Last<T>(rows: seq<T>, n: nat): seq<T>
    requires n <= |rows|
  {
    rows[|rows| - n..]
  }

  function WidthEnd<T(==)>(view: seq<T>, anchor: seq<T>, width: nat): Option<nat> {
    if width <= |anchor| then UniqueEnd(view, Last(anchor, width)) else None
  }

  /** Where the widest of these stored tails that occur once ends. */
  function WidestEnd<T(==)>(view: seq<T>, anchor: seq<T>, width: nat): Option<nat>
    requires width <= |anchor|
  {
    if width == 0 then None
    else if WidthEnd(view, anchor, width).Some? then WidthEnd(view, anchor, width)
    else WidestEnd(view, anchor, width - 1)
  }

  /** The widest stored tail that occurs exactly once in the view. */
  method AnchorEnd<T(==)>(view: seq<T>, anchor: seq<T>) returns (end: Option<nat>, ghost width: nat)
    ensures end == WidestEnd(view, anchor, |anchor|)
    ensures end == WidthEnd(view, anchor, width) && width <= |anchor|
    ensures forall w: nat :: width < w <= |anchor| ==> WidthEnd(view, anchor, w).None?
    ensures end.None? ==> width == 0
    ensures end.Some? ==> end.value <= |view|
  {
    var k := |anchor|;
    while k > 0
      invariant 0 <= k <= |anchor| && WidestEnd(view, anchor, |anchor|) == WidestEnd(view, anchor, k)
      invariant forall w: nat :: k < w <= |anchor| ==> WidthEnd(view, anchor, w).None?
    {
      end := UniqueEnd(view, anchor[|anchor| - k..]);
      if end.Some? {
        return end, k;
      }
      assert WidthEnd(view, anchor, k).None?;
      k := k - 1;
    }
    return None, 0;
  }

  /** How far the stored rows, as many as the view has, agree with the view from its start; None when they do not. */
  function PrefixCount<T(==)>(stored: seq<T>, view: seq<T>): (n: Option<nat>)
    ensures n.Some? ==> n.value <= |view| && n.value <= |stored| && view[..n.value] == stored[..n.value]
    ensures n.Some? ==> n.value == |stored| || n.value == |view|
  {
    var seen := if |stored| <= |view| then stored else stored[..|view|];
    if view[..|seen|] == seen then Some(|seen|) else None
  }

  /** Where the rows to store begin: after the boundary, else the stored prefix, else the stored tail. */
  function ResumeAt<T(==)>(boundary: Option<seq<T>>, earlier: seq<T>, stored: seq<T>, view: seq<T>): Option<nat> {
    var bound, prefix := BoundEnd(boundary, view), PrefixStart(earlier, stored, view);
    if bound.Some? then bound
    else if prefix.Some? then prefix
    else
      var anchor := Tail(earlier + stored, AnchorRows);
      WidestEnd(view, anchor, |anchor|)
  }

  function BoundEnd<T(==)>(boundary: Option<seq<T>>, view: seq<T>): Option<nat> {
    if boundary.Some? then UniqueEnd(view, boundary.value) else None
  }

  /** An empty continuation of earlier sessions is not an empty history. */
  function PrefixStart<T(==)>(earlier: seq<T>, stored: seq<T>, view: seq<T>): Option<nat> {
    if PrefixCount(stored, view) == Some(0) && earlier != [] then None else PrefixCount(stored, view)
  }

  method ResumePoint<T(==)>(boundary: Option<seq<T>>, earlier: seq<T>, stored: seq<T>, view: seq<T>)
    returns (start: Option<nat>)
    requires view != []
    ensures start == ResumeAt(boundary, earlier, stored, view)
    ensures start.Some? ==> start.value <= |view|
  {
    start := if boundary.Some? then UniqueEnd(view, boundary.value) else None;
    if start.None? {
      start := PrefixCount(stored, view);
      if start == Some(0) && earlier != [] {
        start := None;
      }
      if start.None? {
        ghost var width;
        start, width := AnchorEnd(view, Tail(earlier + stored, AnchorRows));
      }
    }
  }

  /** None of the resume points is found. */
  ghost predicate NotFound<T>(boundary: Option<seq<T>>, earlier: seq<T>, stored: seq<T>, view: seq<T>) {
    && (boundary.Some? ==> UniqueEnd(view, boundary.value).None?)
    && (PrefixCount(stored, view).None? || (PrefixCount(stored, view) == Some(0) && earlier != []))
    && var anchor := Tail(earlier + stored, AnchorRows);
       forall w: nat :: 0 < w <= |anchor| ==> WidthEnd(view, anchor, w).None?
  }

  /** No width above `w` has an end. */
  ghost predicate WidestAt<T>(view: seq<T>, anchor: seq<T>, w: nat, width: nat) {
    forall v: nat :: w < v <= width ==> WidthEnd(view, anchor, v).None?
  }

  lemma {:induction false} WidestMeans<T>(view: seq<T>, anchor: seq<T>, width: nat) returns (w: nat)
    requires width <= |anchor|
    ensures w <= width && WidestAt(view, anchor, w, width)
    ensures WidestEnd(view, anchor, width) == if w == 0 then None else WidthEnd(view, anchor, w)
    ensures w == 0 || WidthEnd(view, anchor, w).Some?
  {
    if width == 0 {
      w := 0;
    } else {
      var end := WidthEnd(view, anchor, width);
      if end.Some? {
        w := width;
      } else {
        w := WidestMeans(view, anchor, width - 1);
        assert WidestEnd(view, anchor, width) == WidestEnd(view, anchor, width - 1);
        forall v: nat | w < v <= width ensures WidthEnd(view, anchor, v).None? {
          assert v < width ==> WidthEnd(view, anchor, v).None?;
        }
      }
    }
  }

  /** The rows before `start` end with the only occurrence of the last `w` stored rows, and no longer stored tail, up
      to the anchor's rows, occurs once. */
  ghost predicate TailAt<T>(view: seq<T>, all: seq<T>, start: nat, w: nat) {
    && 0 < w <= start && w <= |all| && w <= AnchorRows && OnlyAt(view, Last(all, w), start - w)
    && (forall v: nat :: w < v <= |all| && v <= AnchorRows ==> !Once(view, Last(all, v)))
  }

  lemma LastOfTail<T>(all: seq<T>, v: nat)
    requires v <= |all| && v <= AnchorRows
    ensures v <= |Tail(all, AnchorRows)| && Last(Tail(all, AnchorRows), v) == Last(all, v)
  {
  }

  lemma TailMeans<T>(all: seq<T>, view: seq<T>)
    ensures var anchor := Tail(all, AnchorRows);
      var end := WidestEnd(view, anchor, |anchor|);
      end.Some? ==> exists w: nat :: TailAt(view, all, end.value, w)
  {
    var anchor := Tail(all, AnchorRows);
    var w := WidestMeans(view, anchor, |anchor|);
    if w > 0 {
      LastOfTail(all, w);
      OnceEnd(view, Last(all, w));
      forall v: nat | w < v <= |all| && v <= AnchorRows ensures !Once(view, Last(all, v)) {
        LastOfTail(all, v);
        OnceEnd(view, Last(all, v));
        assert WidthEnd(view, anchor, v).None?;
      }
      assert TailAt(view, all, WidthEnd(view, anchor, w).value, w);
    }
  }

  /** The rows before the resume point end with the boundary's only occurrence in the view; or, without one, they are
      what is stored from its start; or, without that either, they end with the only occurrence of a stored tail, of
      which no longer one occurs once. */
  lemma ResumeMeans<T>(boundary: Option<seq<T>>, earlier: seq<T>, stored: seq<T>, view: seq<T>)
    requires view != [] && ResumeAt(boundary, earlier, stored, view).Some?
    ensures var start := ResumeAt(boundary, earlier, stored, view).value;
      if BoundEnd(boundary, view).Some? then
        |boundary.value| <= start && OnlyAt(view, boundary.value, start - |boundary.value|)
      else if PrefixStart(earlier, stored, view).Some? then
        && start <= |stored| && start <= |view| && view[..start] == stored[..start]
        && (start == |stored| || start == |view|) && (start == 0 ==> earlier == [])
      else
        exists w: nat :: TailAt(view, earlier + stored, start, w)
  {
    if BoundEnd(boundary, view).Some? {
      OnceEnd(view, boundary.value);
    } else if PrefixStart(earlier, stored, view).None? {
      TailMeans(earlier + stored, view);
    }
  }

  lemma NotFoundExactly<T>(boundary: Option<seq<T>>, earlier: seq<T>, stored: seq<T>, view: seq<T>)
    ensures ResumeAt(boundary, earlier, stored, view).None? <==> NotFound(boundary, earlier, stored, view)
  {
    var anchor := Tail(earlier + stored, AnchorRows);
    var w := WidestMeans(view, anchor, |anchor|);
    assert w == 0 <==> WidestEnd(view, anchor, |anchor|).None?;
  }

  /** The rows one call stores.  `earlier` is what the sessions this one continues already hold. */
  method NewRows<T(==)>(boundary: Option<seq<T>>, earlier: seq<T>, stored: seq<T>, view: seq<T>)
    returns (suffix: seq<T>)
    requires view != []
    ensures var start := ResumeAt(boundary, earlier, stored, view);
      if start.Some? then start.value <= |view| && suffix == view[start.value..]
      else suffix == Beyond(view, multiset(earlier + stored))
    ensures ResumeAt(boundary, earlier, stored, view).None? <==> NotFound(boundary, earlier, stored, view)
    ensures NotFound(boundary, earlier, stored, view) ==>
      forall x :: multiset(earlier + stored + suffix)[x] == Max(multiset(earlier + stored)[x], multiset(view)[x])
  {
    NotFoundExactly(boundary, earlier, stored, view);
    var start := ResumePoint(boundary, earlier, stored, view);
    if start.None? {
      suffix := CountedSuffix(view, multiset(earlier + stored));
      assert multiset(earlier + stored + suffix) == multiset(earlier + stored) + multiset(suffix);
    } else {
      suffix := view[start.value..];
    }
  }

  /** A session with no boundary and no earlier sessions whose rows are the view's start ends up as the view. */
  method ResumeAfterPrefix<T(==)>(stored: seq<T>, view: seq<T>) returns (suffix: seq<T>)
    requires view != [] && |stored| <= |view| && view[..|stored|] == stored
    ensures stored + suffix == view
  {
    assert PrefixCount(stored, view) == Some(|stored|);
    var start := ResumePoint(None, [], stored, view);
    suffix := view[start.value..];
  }

  /** A turn that only extends the remembered view stores exactly its new rows, or its boundary is not
      found; it never stores a row again and never skips one. */
  method ResumeAfterBoundary<T(==)>(view: seq<T>, more: seq<T>, earlier: seq<T>, stored: seq<T>)
    returns (suffix: seq<T>)
    requires view + more != []
    ensures UniqueEnd(view + more, Boundary(view)).Some? ==> suffix == more
  {
    ResolvesExactly(view, more);
    suffix := NewRows(Some(Boundary(view)), earlier, stored, view + more);
  }

  // ---- what is remembered and where storing resumes, outright -------------

  /** The remembered boundary of a view that is not empty ends it and occurs in it once; it is the last three rows, or
      all of fewer, unless these occur earlier too, and then it is the whole view. */
  lemma BoundaryOutcome<T>(view: seq<T>)
    requires view != []
    ensures var anchor := Boundary(view);
      && 0 < |anchor| <= |view| && view[|view| - |anchor|..] == anchor && OnlyAt(view, anchor, |view| - |anchor|)
      && var width := if |view| < 3 then |view| else 3;
         |anchor| == if Once(view, view[|view| - width..]) then width else |view|
  {
    var tail := Tail(view, AnchorRows);
    OnceEnd(view, tail);
    BoundaryEnds(view);
    assert view[0..|view|] == view;
    forall j: nat | OccursAt(view, view, j) ensures j == 0 {
    }
    assert OnlyAt(view, view, 0);
    assert OccursAt(view, tail, |view| - |tail|);
  }

  /** Some of the last one to three stored rows occur once in the view. */
  ghost predicate TailOnce<T>(view: seq<T>, all: seq<T>) {
    exists w: nat :: 1 <= w <= 3 && w <= |all| && Once(view, Last(all, w))
  }

  /** Storing resumes after the boundary if it occurs once; else where what is stored and the view's start stop being
      the same, unless nothing is stored that continues something; else after the longest tail of the stored rows, up to
      three, that occurs once; and otherwise nowhere. */
  lemma ResumeOutcome<T>(boundary: Option<seq<T>>, earlier: seq<T>, stored: seq<T>, view: seq<T>)
    requires view != []
    ensures var start := ResumeAt(boundary, earlier, stored, view);
      if boundary.Some? && boundary.value != [] && Once(view, boundary.value) then
        start.Some? && |boundary.value| <= start.value && OnlyAt(view, boundary.value, start.value - |boundary.value|)
      else if (stored <= view || view <= stored) && (stored != [] || earlier == []) then
        start == Some(if |stored| <= |view| then |stored| else |view|)
      else if TailOnce(view, earlier + stored) then
        start.Some? && exists w: nat :: TailAt(view, earlier + stored, start.value, w)
      else start.None?
  {
    if boundary.Some? {
      OnceEnd(view, boundary.value);
    }
    PrefixOutcome(stored, view);
    if BoundEnd(boundary, view).None? && PrefixStart(earlier, stored, view).None? {
      TailOutcome(earlier + stored, view);
    }
  }

  lemma PrefixOutcome<T>(stored: seq<T>, view: seq<T>)
    ensures PrefixCount(stored, view) ==
      if stored <= view || view <= stored then Some(if |stored| <= |view| then |stored| else |view|) else None
  {
    assert stored <= view ==> view[..|stored|] == stored;
    assert view <= stored ==> view[..|view|] == stored[..|view|];
  }

  lemma TailOutcome<T>(all: seq<T>, view: seq<T>)
    ensures var anchor := Tail(all, AnchorRows);
      WidestEnd(view, anchor, |anchor|).Some? <==> TailOnce(view, all)
    ensures var anchor := Tail(all, AnchorRows);
      var end := WidestEnd(view, anchor, |anchor|);
      end.Some? ==> exists w: nat :: TailAt(view, all, end.value, w)
  {
    var anchor := Tail(all, AnchorRows);
    TailMeans(all, view);
    var w := WidestMeans(view, anchor, |anchor|);
    if w == 0 {
      forall v: nat | 1 <= v <= 3 && v <= |all| ensures !Once(view, Last(all, v)) {
        LastOfTail(all, v);
        OnceEnd(view, Last(all, v));
        assert WidthEnd(view, anchor, v).None?;
      }
    } else {
      LastOfTail(all, w);
      OnceEnd(view, Last(all, w));
    }
  }
}
