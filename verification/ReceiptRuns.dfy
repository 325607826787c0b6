/** Whole runs of publications, invalidations, edits, deletions and version removals. */
module ReceiptRuns {
  import opened Wrappers
  import opened Receipts

  datatype Action =
    | Publishes(s: Snapshot, v: Version, candidates: seq<Candidate>, relations: seq<RelationCandidate>)
    | Invalidates(source: Source)
    | Edits(source: Source, m: Message)
    | Deletes(source: Source)
    | Removes(v: Version)

  function After(t: Tables, a: Action): Tables {
    match a
    case Publishes(s, v, cs, rs) => Publish(t, s, v, cs, rs).0
    case Invalidates(source) => Invalidate(t, source)
    case Edits(source, m) => Edit(t, source, m)
    case Deletes(source) => Delete(t, source)
    case Removes(v) => RemoveVersion(t, v)
  }

  lemma ActionKeeps(t: Tables, a: Action)
    requires Inv(t)
    ensures Inv(After(t, a))
  {
    match a
    case Publishes(s, v, cs, rs) => PublishKeeps(t, s, v, cs, rs);
    case Invalidates(source) => InvalidateKeeps(t, source);
    case Edits(source, m) => EditKeeps(t, source, m);
    case Deletes(source) => DeleteKeeps(t, source);
    case Removes(v) => RemoveKeeps(t, v);
  }

  ghost predicate IsRun(run: seq<Tables>, actions: seq<Action>) {
    && |run| == |actions| + 1 && run[0].receipts == map[] && run[0].assertions == {} && run[0].relations == {}
    && (forall i :: 0 <= i < |actions| ==> run[i + 1] == After(run[i], actions[i]))
  }

  lemma {:induction false} RunKeeps(run: seq<Tables>, actions: seq<Action>, n: nat)
    requires IsRun(run, actions) && n < |run|
    ensures Inv(run[n])
  {
    if n > 0 {
      RunKeeps(run, actions, n - 1);
      ActionKeeps(run[n - 1], actions[n - 1]);
    }
  }

  /** What one step leaves of a receipt that is there, unless its version is removed. */
  lemma ReceiptStays(t: Tables, a: Action, k: Key)
    requires Inv(t) && k in t.receipts && a != Removes(k.version)
    ensures k in After(t, a).receipts && After(t, a).receipts[k].output == t.receipts[k].output
  {
    if a.Publishes? {
      TransactStays(t, a.s, a.v, k);
    }
  }

  lemma TransactStays(t: Tables, s: Snapshot, v: Version, k: Key)
    requires Inv(t) && k in t.receipts
    ensures forall output :: var t' := Transact(t, s, v, output).0;
      k in t'.receipts && t'.receipts[k].output == t.receipts[k].output
  {
  }

  /** One candidate digest per source content and version until that version is removed; and all that time its
      assertions are exactly those it was first published with. */
  lemma {:induction false} DigestTied(run: seq<Tables>, actions: seq<Action>, i: nat, j: nat, k: Key)
    requires IsRun(run, actions) && i <= j < |run| && k in run[i].receipts
    requires forall m :: i <= m < j ==> actions[m] != Removes(k.version)
    ensures k in run[j].receipts && run[j].receipts[k].output == run[i].receipts[k].output
    ensures forall a: Assertion :: a.key == k ==>
      (a in run[j].assertions <==> a in run[i].receipts[k].output.assertions)
  {
    if i < j {
      DigestTied(run, actions, i, j - 1, k);
      RunKeeps(run, actions, j - 1);
      ReceiptStays(run[j - 1], actions[j - 1], k);
    }
    RunKeeps(run, actions, j);
  }

  /** A published relation stays exactly while its receipt's version and both its ends' versions do. */
  lemma RelationStays(t: Tables, a: Action, r: Relation)
    requires Inv(t) && r.key in t.receipts && (forall v :: a == Removes(v) ==> v != r.key.version)
    ensures r in After(t, a).relations <==> r in t.relations && (a.Removes? ==> !Touches(r, a.v))
  {
    if a.Publishes? {
      TransactRelation(t, a.s, a.v, a.candidates, a.relations, r);
    }
  }

  lemma TransactRelation(t: Tables, s: Snapshot, v: Version, cs: seq<Candidate>, rs: seq<RelationCandidate>,
                         r: Relation)
    requires Inv(t) && r.key in t.receipts
    ensures r in Publish(t, s, v, cs, rs).0.relations <==> r in t.relations
  {
  }

  ghost predicate Untouched(actions: seq<Action>, i: nat, j: nat, r: Relation)
    requires j <= |actions|
  {
    forall m :: i <= m < j && actions[m].Removes? ==> !Touches(r, actions[m].v)
  }

  /** Relations are restored less than assertions: a published relation is still there exactly when no version
      it touches was removed meanwhile, although its own receipt goes on saying it is current. */
  lemma {:induction false} RelationsLost(run: seq<Tables>, actions: seq<Action>, i: nat, j: nat, r: Relation)
    requires IsRun(run, actions) && i <= j < |run| && r in run[i].relations
    requires forall m :: i <= m < j ==> actions[m] != Removes(r.key.version)
    ensures r.key in run[j].receipts
    ensures r in run[j].relations <==> Untouched(actions, i, j, r)
  {
    RunKeeps(run, actions, i);
    if i < j {
      RelationsLost(run, actions, i, j - 1, r);
      RunKeeps(run, actions, j - 1);
      ReceiptStays(run[j - 1], actions[j - 1], r.key);
      RelationStays(run[j - 1], actions[j - 1], r);
    }
  }

  function OneReceipt(s: Snapshot, b: Version, y: Assertion): Tables {
    Tables(map[s.source := s.message], map[KeyOf(s, b) := Receipt(s.message.meta, Output({y}, {}), true)], {y}, {})
  }

  function TwoReceipts(s: Snapshot, a: Version, b: Version, x: Assertion, y: Assertion, r: Relation): Tables {
    Tables(map[s.source := s.message],
           map[KeyOf(s, b) := Receipt(s.message.meta, Output({y}, {}), true),
             KeyOf(s, a) := Receipt(s.message.meta, Output({x}, {r}), true)],
           {x, y}, {r})
  }

  lemma PublishTheirs(s: Snapshot, b: Version, theirs: Candidate, y: Assertion)
    requires PrepareAssertion(s, b, theirs) == Some(y)
    ensures Publish(Tables(map[s.source := s.message], map[], {}, {}), s, b, [theirs], []) ==
      (OneReceipt(s, b, y), Published)
  {
    var t, one := Tables(map[s.source := s.message], map[], {}, {}), OneReceipt(s, b, y);
    OneAssertion(s, b, theirs);
    FreshPublish(t, s, b, [theirs], [], Output({y}, {}));
    var no: set<Relation> := {};
    assert t.assertions + {y} == one.assertions && t.relations + no == one.relations;
    assert t.receipts[KeyOf(s, b) := Receipt(s.message.meta, Output({y}, {}), true)] == one.receipts;
  }

  lemma PublishMine(s: Snapshot, a: Version, b: Version, mine: Candidate, relation: RelationCandidate, x: Assertion,
                    y: Assertion, r: Relation)
    requires a != b && x.key == KeyOf(s, a) && y.key == KeyOf(s, b) && r.from == x && r.target == y
    requires PrepareAssertion(s, a, mine) == Some(x) && PrepareRelation(s, a, relation) == Some(r)
    ensures Publish(OneReceipt(s, b, y), s, a, [mine], [relation]) == (TwoReceipts(s, a, b, x, y, r), Published)
  {
    var one, two := OneReceipt(s, b, y), TwoReceipts(s, a, b, x, y, r);
    OneAssertion(s, a, mine);
    OneRelation(s, a, relation);
    assert Active(one, KeyOf(s, b)) && Active(two, KeyOf(s, a)) && Active(two, KeyOf(s, b));
    FreshPublish(one, s, a, [mine], [relation], Output({x}, {r}));
    assert one.assertions + {x} == two.assertions && one.relations + {r} == two.relations;
  }

  lemma RemoveTheirs(s: Snapshot, a: Version, b: Version, mine: Candidate, relation: RelationCandidate, x: Assertion,
                     y: Assertion, r: Relation)
    requires a != b && x.key == KeyOf(s, a) && y.key == KeyOf(s, b) && r.from == x && r.target == y
    requires PrepareAssertion(s, a, mine) == Some(x) && PrepareRelation(s, a, relation) == Some(r)
    ensures var removed := RemoveVersion(TwoReceipts(s, a, b, x, y, r), b);
      removed.relations == {} && Publish(removed, s, a, [mine], [relation]) == (removed, AlreadyCurrent)
  {
    var removed := RemoveVersion(TwoReceipts(s, a, b, x, y, r), b);
    OneAssertion(s, a, mine);
    OneRelation(s, a, relation);
    assert Active(removed, KeyOf(s, a)) && removed.receipts[KeyOf(s, a)].output == Output({x}, {r});
    assert ActiveFor(removed, s.source, a);
  }

  /** One version publishes an assertion and another one an assertion with a relation to it.  Removing the first
      takes the relation away, and publishing the same output for the second again answers already current. */
  lemma LostRelation(s: Snapshot, a: Version, b: Version, mine: Candidate, theirs: Candidate, kind: string)
    requires a != b && PrepareAssertion(s, a, mine).Some? && PrepareAssertion(s, b, theirs).Some?
    ensures var x, y := PrepareAssertion(s, a, mine).value, PrepareAssertion(s, b, theirs).value;
      var relation := RelationCandidate(mine.start, mine.end, x, kind, y);
      var first := Publish(Tables(map[s.source := s.message], map[], {}, {}), s, b, [theirs], []);
      var second := Publish(first.0, s, a, [mine], [relation]);
      var removed := RemoveVersion(second.0, b);
      && first.1 == Published && second.1 == Published && |second.0.relations| == 1
      && removed.relations == {} && Publish(removed, s, a, [mine], [relation]) == (removed, AlreadyCurrent)
  {
    var x, y := PrepareAssertion(s, a, mine).value, PrepareAssertion(s, b, theirs).value;
    var relation := RelationCandidate(mine.start, mine.end, x, kind, y);
    var r := PrepareRelation(s, a, relation).value;
    PublishTheirs(s, b, theirs, y);
    PublishMine(s, a, b, mine, relation, x, y, r);
    RemoveTheirs(s, a, b, mine, relation, x, y, r);
  }

  lemma OneRelation(s: Snapshot, v: Version, c: RelationCandidate)
    requires PrepareRelation(s, v, c).Some?
    ensures PrepareRelations(s, v, [c]) == Rows({PrepareRelation(s, v, c).value})
  {
    assert [c][..0] == [];
  }

  lemma FreshPublish(t: Tables, s: Snapshot, v: Version, cs: seq<Candidate>, rs: seq<RelationCandidate>, output: Output)
    requires |cs| <= MaxCandidates && |rs| <= MaxCandidates
    requires PrepareAssertions(s, v, cs) == Rows(output.assertions)
      && PrepareRelations(s, v, rs) == Rows(output.relations)
    requires Current(t, s) && KeyOf(s, v) !in t.receipts && !ActiveFor(t, s.source, v)
    requires var written :=
      WithReceipt(t, KeyOf(s, v),
        Receipt(s.message.meta, output, true)).(assertions := t.assertions + output.assertions);
      EndpointsOk(written, output.relations)
    ensures Publish(t, s, v, cs, rs)
         == (Tables(t.messages, t.receipts[KeyOf(s, v) := Receipt(s.message.meta, output, true)],
                    t.assertions + output.assertions, t.relations + output.relations), Published)
  {
  }

  lemma OneAssertion(s: Snapshot, v: Version, c: Candidate)
    requires PrepareAssertion(s, v, c).Some?
    ensures PrepareAssertions(s, v, [c]) == Rows({PrepareAssertion(s, v, c).value})
  {
    assert [c][..0] == [];
  }
}
