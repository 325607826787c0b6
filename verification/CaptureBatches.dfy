/** Where a batch of lines ends makes no difference. */
module CaptureBatches {
  import opened CaptureCursor
  import opened CaptureLedger

  /** Where a lineage's state and cursor stand after one batch. */
  function AfterBatch<S>(step: (S, nat, Bytes) -> S, s: S, c: Cursor, lines: seq<(nat, Bytes)>): (S, Cursor)
    requires lines != []
  {
    (Fold(step, s, c.lineIndex, Raws(lines)), Advance(c, lines))
  }

  lemma BatchesJoin<S>(step: (S, nat, Bytes) -> S, s: S, c: Cursor, a: seq<(nat, Bytes)>, b: seq<(nat, Bytes)>)
    requires a != [] && b != [] && Terminated(a[|a| - 1].1)
    ensures var first := AfterBatch(step, s, c, a);
      Same(AfterBatch(step, first.0, first.1, b), AfterBatch(step, s, c, a + b))
  {
    FoldAppend(step, s, c.lineIndex, Raws(a), Raws(b));
    assert Raws(a + b) == Raws(a) + Raws(b);
  }

  /** Two batches leave exactly what one leaves: ledger, rows, bindings, relations, links and cursor. */
  lemma BatchIndependent(p: Point, who: Lineage, fork: Fork, c: Cursor, a: seq<(nat, Bytes)>, b: seq<(nat, Bytes)>,
                         parse: Parser)
    requires a != [] && b != [] && Terminated(a[|a| - 1].1)
    ensures var step := Stepper(who, fork, c.generation, parse);
      var first := AfterBatch(step, p, c, a);
      AfterBatch(step, first.0, first.1, b) == AfterBatch(step, p, c, a + b) && first.1.generation == c.generation
  {
    BatchesJoin(Stepper(who, fork, c.generation, parse), p, c, a, b);
  }
}
