/** When a publication succeeds and which rows it writes, said of the candidates and the tables alone. */
module ReceiptOutcomes {
  import opened Wrappers
  import opened Receipts

  predicate InText(s: Snapshot, start: int, end: int) {
    0 <= start < end <= |s.message.content|
  }

  /** The assertion a candidate stands for: its span of the source's text, quoted, under the source, version and
      text. */
  predicate StandsFor(s: Snapshot, v: Version, c: Candidate, a: Assertion) {
    && InText(s, c.start, c.end)
    && a == Assertion(Key(s.source, v, s.message.content), s.message.meta, c.start, c.end,
                      s.message.content[c.start..c.end], c.body)
  }

  predicate RelationFor(s: Snapshot, v: Version, c: RelationCandidate, r: Relation) {
    && InText(s, c.start, c.end)
    && r == Relation(Key(s.source, v, s.message.content), c.start, c.end, s.message.content[c.start..c.end],
                     c.from, c.kind, c.target)
  }

  /** Nothing is named twice. */
  ghost predicate Once<T>(cs: seq<T>) {
    forall i, j :: 0 <= i < j < |cs| ==> cs[i] != cs[j]
  }

  lemma OnceAppend<T>(front: seq<T>, last: T)
    ensures Once(front + [last]) <==> Once(front) && last !in front
  {
    var cs := front + [last];
    assert cs[|front|] == last && forall i :: 0 <= i < |front| ==> cs[i] == front[i];
  }

  ghost predicate RowsOf(s: Snapshot, v: Version, cs: seq<Candidate>, rows: set<Assertion>) {
    forall a :: a in rows <==> exists c :: c in cs && StandsFor(s, v, c, a)
  }

  /** Candidates are invalid exactly when some span lies outside the text, and duplicate exactly when they are valid but
      one is named twice; otherwise the rows are those that they stand for, all of them and no other. */
  lemma {:induction false} AssertionsExactly(s: Snapshot, v: Version, cs: seq<Candidate>)
    ensures var p := PrepareAssertions(s, v, cs);
      && (p == Rejected(Invalid) <==> exists c :: c in cs && !InText(s, c.start, c.end))
      && (p.Rows? <==> (forall c :: c in cs ==> InText(s, c.start, c.end)) && Once(cs))
      && (p.Rejected? ==> p.error == Invalid || p.error == Duplicate)
      && (p.Rows? ==> RowsOf(s, v, cs, p.rows))
  {
    if cs != [] {
      var front, last := cs[..|cs| - 1], cs[|cs| - 1];
      AssertionsExactly(s, v, front);
      OnceAppend(front, last);
      assert cs == front + [last];
      assert forall c :: c in cs <==> c in front || c == last;
      var rest, row := PrepareAssertions(s, v, front), PrepareAssertion(s, v, last);
      if rest.Rows? && row.Some? {
        assert StandsFor(s, v, last, row.value);
        assert row.value in rest.rows <==> last in front by {
          assert last in front ==> exists c :: c in front && StandsFor(s, v, c, row.value);
          assert row.value in rest.rows ==> exists c :: c in front && StandsFor(s, v, c, row.value);
        }
        RowsAppend(s, v, front, last, rest.rows, row.value);
      }
    }
  }

  lemma RowsAppend(s: Snapshot, v: Version, front: seq<Candidate>, last: Candidate, rows: set<Assertion>,
                   row: Assertion)
    requires RowsOf(s, v, front, rows) && StandsFor(s, v, last, row)
    ensures RowsOf(s, v, front + [last], rows + {row})
  {
    forall a ensures a in rows + {row} <==> exists c :: c in front + [last] && StandsFor(s, v, c, a) {
      if a in rows {
        var c :| c in front && StandsFor(s, v, c, a);
        assert c in front + [last];
      }
      assert last in front + [last];
    }
  }

  ghost predicate RelationsOf(s: Snapshot, v: Version, cs: seq<RelationCandidate>, rows: set<Relation>) {
    forall r :: r in rows <==> exists c :: c in cs && RelationFor(s, v, c, r)
  }

  /** The same of relations, which also need two different ends. */
  lemma {:induction false} RelationsExactly(s: Snapshot, v: Version, cs: seq<RelationCandidate>)
    ensures var p := PrepareRelations(s, v, cs);
      && (p == Rejected(Invalid) <==> exists c :: c in cs && !(InText(s, c.start, c.end) && c.from != c.target))
      && (p.Rows? <==> (forall c :: c in cs ==> InText(s, c.start, c.end) && c.from != c.target) && Once(cs))
      && (p.Rejected? ==> p.error == Invalid || p.error == Duplicate)
      && (p.Rows? ==> RelationsOf(s, v, cs, p.rows))
  {
    if cs != [] {
      var front, last := cs[..|cs| - 1], cs[|cs| - 1];
      RelationsExactly(s, v, front);
      OnceAppend(front, last);
      assert cs == front + [last];
      assert forall c :: c in cs <==> c in front || c == last;
      var rest, row := PrepareRelations(s, v, front), PrepareRelation(s, v, last);
      if rest.Rows? && row.Some? {
        assert RelationFor(s, v, last, row.value);
        assert row.value in rest.rows <==> last in front by {
          assert last in front ==> exists c :: c in front && RelationFor(s, v, c, row.value);
          assert row.value in rest.rows ==> exists c :: c in front && RelationFor(s, v, c, row.value);
        }
        RelationsAppend(s, v, front, last, rest.rows, row.value);
      }
    }
  }

  lemma RelationsAppend(s: Snapshot, v: Version, front: seq<RelationCandidate>, last: RelationCandidate,
                        rows: set<Relation>, row: Relation)
    requires RelationsOf(s, v, front, rows) && RelationFor(s, v, last, row)
    ensures RelationsOf(s, v, front + [last], rows + {row})
  {
    forall r ensures r in rows + {row} <==> exists c :: c in front + [last] && RelationFor(s, v, c, r) {
      if r in rows {
        var c :| c in front && RelationFor(s, v, c, r);
        assert c in front + [last];
      }
      assert last in front + [last];
    }
  }

  ghost predicate Wellformed(s: Snapshot, cs: seq<Candidate>, rs: seq<RelationCandidate>) {
    && |cs| <= 500 && |rs| <= 500
    && (forall c :: c in cs ==> InText(s, c.start, c.end))
    && (forall c :: c in rs ==> InText(s, c.start, c.end) && c.from != c.target)
  }

  /** The output holds all the rows that the candidates stand for, and no other. */
  ghost predicate OutputOf(s: Snapshot, v: Version, cs: seq<Candidate>, rs: seq<RelationCandidate>, output: Output) {
    RowsOf(s, v, cs, output.assertions) && RelationsOf(s, v, rs, output.relations)
  }

  /** The assertion is among the new ones, or is there under an active receipt. */
  predicate Stands(t: Tables, output: Output, k: Key, a: Assertion) {
    && (a in output.assertions || a in t.assertions)
    && (a.key == k || (a.key in t.receipts && t.receipts[a.key].active))
  }

  /** A publication of invalid, then duplicate candidates, then of a text that is no longer the source's, fails.
      Otherwise the receipt of this source, version and text decides: with the same output it is current, active again
      if it was not; with another output there is a conflict; and without a receipt all the rows are written, exactly
      when both ends of every relation stand. */
  lemma PublishOutcome(t: Tables, s: Snapshot, v: Version, cs: seq<Candidate>, rs: seq<RelationCandidate>)
    requires Inv(t)
    ensures var (u, result) := Publish(t, s, v, cs, rs);
      if !Wellformed(s, cs, rs) then u == t && result == Failed(Invalid)
      else if !(Once(cs) && Once(rs)) then u == t && result == Failed(Duplicate)
      else if !(s.source in t.messages && t.messages[s.source] == s.message) then u == t && result == Failed(Stale)
      else exists output :: OutputOf(s, v, cs, rs, output) && Decided(t, s, v, output, u, result)
  {
    AssertionsExactly(s, v, cs);
    RelationsExactly(s, v, rs);
    if Wellformed(s, cs, rs) && (Once(cs) && Once(rs)) && Current(t, s) {
      var output := Output(PrepareAssertions(s, v, cs).rows, PrepareRelations(s, v, rs).rows);
      assert OutputOf(s, v, cs, rs, output);
      TransactOutcome(t, s, v, output);
    }
  }

  ghost predicate Decided(t: Tables, s: Snapshot, v: Version, output: Output, u: Tables, result: Result) {
    var k := Key(s.source, v, s.message.content);
    var receipt := Receipt(s.message.meta, output, true);
    if k in t.receipts then
      if t.receipts[k].output != output then u == t && result == Failed(Conflict)
      else
        && result == AlreadyCurrent
        && u == if t.receipts[k].active then t else t.(receipts := t.receipts[k := receipt])
    else if forall r :: r in output.relations ==> Stands(t, output, k, r.from) && Stands(t, output, k, r.target) then
      && result == Published
      && u == Tables(t.messages, t.receipts[k := receipt], t.assertions + output.assertions,
                     t.relations + output.relations)
    else u == t && result == Failed(MissingEndpoint)
  }

  lemma TransactOutcome(t: Tables, s: Snapshot, v: Version, output: Output)
    requires Inv(t) && s.source in t.messages && t.messages[s.source] == s.message
    ensures var (u, result) := Transact(t, s, v, output);
      Decided(t, s, v, output, u, result)
  {
    var k := KeyOf(s, v);
    assert ActiveFor(t, s.source, v) <==> Active(t, k) by {
      if h :| h in t.receipts && h.source == s.source && h.version == v && t.receipts[h].active {
        assert h == k;
      }
      assert Active(t, k) ==> k.source == s.source;
    }
  }

  /** An edit of a source leaves none of its receipts active exactly when it changes the text; a deletion always
      does. */
  lemma EditOutcome(t: Tables, source: Source, m: Message)
    requires Inv(t)
    ensures var u := Edit(t, source, m);
      && u.messages == t.messages[source := m] && u.assertions == t.assertions && u.relations == t.relations
      && u.receipts.Keys == t.receipts.Keys
      && forall k :: k in t.receipts ==>
           && u.receipts[k].output == t.receipts[k].output && u.receipts[k].meta == t.receipts[k].meta
           && (u.receipts[k].active <==> t.receipts[k].active && (k.source == source ==> k.content == m.content))
    ensures var u := Delete(t, source);
      && u.messages == t.messages - {source} && u.assertions == t.assertions && u.relations == t.relations
      && u.receipts.Keys == t.receipts.Keys
      && forall k :: k in t.receipts ==>
           && u.receipts[k].output == t.receipts[k].output && u.receipts[k].meta == t.receipts[k].meta
           && (u.receipts[k].active <==> t.receipts[k].active && k.source != source)
  {
  }
}
