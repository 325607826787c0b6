/** Interval arithmetic of the chunk gap fill: certificates of covered message ids and the ranges left to scan. */
module GapCoverage {
  import opened Wrappers

  const CHUNK_POLICY_REVISION: int := 2

  datatype Coverage = Coverage(first: int, through: int, policy: string)

  datatype Range = Range(low: int, high: int)

  predicate In(id: int, r: Range) {
    r.low <= id <= r.high
  }

  predicate Certifies(c: Option<Coverage>, policy: string, id: int) {
    c.Some? && c.value.policy == policy && c.value.first <= id <= c.value.through
  }

  /** A certificate may be empty, but its ends are never further apart than that. */
  predicate WellFormed(c: Option<Coverage>) {
    c.Some? ==> c.value.first <= c.value.through + 1
  }

  function Max(a: int, b: int): int {
    if a < b then b else a
  }

  function Min(a: int, b: int): int {
    if b < a then b else a
  }

  /** The certificate to store after proving [low, through] while `previous` is on record. */
  function CoverageValue(previous: Option<Coverage>, low: int, through: int, policy: string): Coverage {
    if previous.Some? && previous.value.policy == policy then
      var first, last := previous.value.first, previous.value.through;
      if low <= last + 1 && first <= through + 1 then Coverage(Min(low, first), Max(through, last), policy)
      else if low < first then Coverage(first, last, policy)
      else Coverage(low, through, policy)
    else Coverage(low, through, policy)
  }

  /** Merging never certifies an id that neither input certified, and touching certificates lose nothing. */
  lemma MergeExact(previous: Option<Coverage>, low: int, through: int, policy: string, id: int)
    requires WellFormed(previous) && low <= through + 1
    ensures var c := CoverageValue(previous, low, through, policy);
            && c.policy == policy && WellFormed(Some(c))
            && (c.first <= id <= c.through ==> low <= id <= through || Certifies(previous, policy, id))
            && (previous.Some? && previous.value.policy == policy
                && low <= previous.value.through + 1 && previous.value.first <= through + 1 ==>
                  (low <= id <= through || Certifies(previous, policy, id) ==> c.first <= id <= c.through))
  {
  }

  function GapBounds(bounds: Range, revision: int, policy: string, coverage: Option<Coverage>): Option<Range> {
    if revision >= CHUNK_POLICY_REVISION && coverage.Some? && coverage.value.policy == policy then
      if bounds.low < coverage.value.first then
        Some(Range(bounds.low, Min(bounds.high, coverage.value.first - 1)))
      else
        var low := Max(bounds.low, coverage.value.through + 1);
        if low <= bounds.high then Some(Range(low, bounds.high)) else None
    else if bounds.low <= bounds.high then Some(bounds)
    else None
  }

  function GapRanges(bounds: Option<Range>, revision: int, policy: string, coverage: Option<Coverage>): seq<Range> {
    if bounds.None? || policy == "full" then []
    else
      var band := GapBounds(bounds.value, revision, policy, coverage);
      if band.None? then []
      else if revision >= CHUNK_POLICY_REVISION && coverage.Some? && coverage.value.policy == policy
              && bounds.value.low < coverage.value.first && coverage.value.through < bounds.value.high then
        [Range(Max(bounds.value.low, coverage.value.through + 1), bounds.value.high), band.value]
      else [band.value]
  }

  /** How many of the ranges hold the id. */
  function Holding(id: int, ranges: seq<Range>): nat {
    if ranges == [] then 0
    else (if In(id, ranges[0]) then 1 else 0) + Holding(id, ranges[1..])
  }

  /** Every id of the cursor bounds is certified or in exactly one scan range, never both; no other id is scanned. */
  lemma RangesPartition(bounds: Range, revision: int, policy: string, coverage: Option<Coverage>, id: int)
    requires bounds.low <= bounds.high && policy != "full" && WellFormed(coverage)
    ensures var certified := revision >= CHUNK_POLICY_REVISION && Certifies(coverage, policy, id);
            Holding(id, GapRanges(Some(bounds), revision, policy, coverage)) ==
              if In(id, bounds) && !certified then 1 else 0
  {
    var ranges := GapRanges(Some(bounds), revision, policy, coverage);
    if |ranges| == 2 {
      assert ranges[1..] == [ranges[1]] && ranges[1..][1..] == [];
    } else if |ranges| == 1 {
      assert ranges[1..] == [];
    }
  }

  /** With ends further apart than an empty certificate's, the two ranges overlap. */
  lemma MalformedCertificateOverlaps()
    ensures var c := Some(Coverage(10, 5, "heads"));
            !WellFormed(c) && Holding(7, GapRanges(Some(Range(0, 20)), CHUNK_POLICY_REVISION, "heads", c)) == 2
  {
    var ranges := GapRanges(Some(Range(0, 20)), CHUNK_POLICY_REVISION, "heads", Some(Coverage(10, 5, "heads")));
    assert ranges == [Range(6, 20), Range(0, 9)];
    assert ranges[1..] == [Range(0, 9)] && ranges[1..][1..] == [];
    assert Holding(7, ranges[1..]) == 1;
  }
}
