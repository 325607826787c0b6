/**
  Assertion receipts: publishing one source's derived assertions, invalidating them, removing a version, and
  the triggers that follow edits and deletions.  Content hashes, row ids and candidate digests are taken as
  injective, so each is the thing it digests.
 */
module Receipts {
  import opened Wrappers

  type Source = nat
  type Version = string

  const MaxCandidates: nat := 500

  /** A receipt's primary key; `content` stands for the source content hash. */
  datatype Key = Key(source: Source, version: Version, content: string)
  datatype Message = Message(content: string, meta: string)

  datatype Candidate = Candidate(start: int, end: int, body: string)
  datatype Assertion = Assertion(key: Key, meta: string, start: int, end: int, quote: string, body: string)
  datatype RelationCandidate = RelationCandidate(start: int, end: int, from: Assertion, kind: string, target: Assertion)
  datatype Relation = Relation(key: Key, start: int, end: int, quote: string, from: Assertion, kind: string,
    target: Assertion)

  datatype Output = Output(assertions: set<Assertion>, relations: set<Relation>)
  datatype Receipt = Receipt(meta: string, output: Output, active: bool)

  datatype Tables = Tables(messages: map<Source, Message>, receipts: map<Key, Receipt>,
                           assertions: set<Assertion>, relations: set<Relation>)

  datatype Error = Invalid | Duplicate | Stale | Conflict | MissingEndpoint
  datatype Result = Published | AlreadyCurrent | Failed(error: Error)

  datatype Snapshot = Snapshot(source: Source, message: Message)

  // ---- preparing rows ----------------------------------------------------

  predicate SpanOk(content: string, start: int, end: int) {
    0 <= start < end <= |content|
  }

  function KeyOf(s: Snapshot, v: Version): Key {
    Key(s.source, v, s.message.content)
  }

  function PrepareAssertion(s: Snapshot, v: Version, c: Candidate): Option<Assertion> {
    if SpanOk(s.message.content, c.start, c.end)
    then Some(Assertion(KeyOf(s, v), s.message.meta, c.start, c.end, s.message.content[c.start..c.end], c.body))
    else None
  }

  function PrepareRelation(s: Snapshot, v: Version, c: RelationCandidate): Option<Relation> {
    if SpanOk(s.message.content, c.start, c.end) && c.from != c.target
    then Some(Relation(KeyOf(s, v), c.start, c.end, s.message.content[c.start..c.end], c.from, c.kind, c.target))
    else None
  }

  datatype Prepared<T> = Rows(rows: set<T>) | Rejected(error: Error)

  function PrepareAssertions(s: Snapshot, v: Version, cs: seq<Candidate>): (p: Prepared<Assertion>)
    ensures p.Rows? ==> forall a :: a in p.rows ==> a.key == KeyOf(s, v)
  {
    if cs == [] then Rows({})
    else
      var rest, row := PrepareAssertions(s, v, cs[..|cs| - 1]), PrepareAssertion(s, v, cs[|cs| - 1]);
      if rest.Rejected? && rest.error == Invalid then rest
      else if row.None? then Rejected(Invalid)
      else if rest.Rejected? || row.value in rest.rows then Rejected(Duplicate)
      else Rows(rest.rows + {row.value})
  }

  function PrepareRelations(s: Snapshot, v: Version, cs: seq<RelationCandidate>): (p: Prepared<Relation>)
    ensures p.Rows? ==> forall r :: r in p.rows ==> r.key == KeyOf(s, v)
  {
    if cs == [] then Rows({})
    else
      var rest, row := PrepareRelations(s, v, cs[..|cs| - 1]), PrepareRelation(s, v, cs[|cs| - 1]);
      if rest.Rejected? && rest.error == Invalid then rest
      else if row.None? then Rejected(Invalid)
      else if rest.Rejected? || row.value in rest.rows then Rejected(Duplicate)
      else Rows(rest.rows + {row.value})
  }

  // ---- operations --------------------------------------------------------

  predicate Active(t: Tables, k: Key) {
    k in t.receipts && t.receipts[k].active
  }

  predicate ActiveFor(t: Tables, source: Source, v: Version) {
    exists k :: k in t.receipts && k.source == source && k.version == v && t.receipts[k].active
  }

  predicate Current(t: Tables, s: Snapshot) {
    s.source in t.messages && t.messages[s.source] == s.message
  }

  predicate EndpointsOk(t: Tables, relations: set<Relation>) {
    forall r :: r in relations ==>
      r.from in t.assertions && Active(t, r.from.key) && r.target in t.assertions && Active(t, r.target.key)
  }

  function WithReceipt(t: Tables, k: Key, r: Receipt): Tables {
    t.(receipts := t.receipts[k := r])
  }

  /** The transaction: the row is read again, then the receipt found current, restored, or written anew. */
  function Transact(t: Tables, s: Snapshot, v: Version, output: Output): (Tables, Result) {
    var k := KeyOf(s, v);
    if !Current(t, s) then (t, Failed(Stale))
    else if ActiveFor(t, s.source, v) then
      (t, if Active(t, k) && t.receipts[k].output == output then AlreadyCurrent else Failed(Conflict))
    else if k in t.receipts then
      if t.receipts[k].output == output then (WithReceipt(t, k, Receipt(s.message.meta, output, true)), AlreadyCurrent)
      else (t, Failed(Conflict))
    else
      var written :=
        WithReceipt(t, k, Receipt(s.message.meta, output, true)).(assertions := t.assertions + output.assertions);
      if EndpointsOk(written, output.relations) then (written.(relations := t.relations + output.relations), Published)
      else (t, Failed(MissingEndpoint))
  }

  function Publish(t: Tables, s: Snapshot, v: Version, cs: seq<Candidate>, rs: seq<RelationCandidate>): (Tables, Result)
  {
    if |cs| > MaxCandidates || |rs| > MaxCandidates then (t, Failed(Invalid))
    else
      var assertions, relations := PrepareAssertions(s, v, cs), PrepareRelations(s, v, rs);
      if assertions.Rejected? && assertions.error == Invalid then (t, Failed(Invalid))
      else if relations.Rejected? && relations.error == Invalid then (t, Failed(Invalid))
      else if assertions.Rejected? || relations.Rejected? then (t, Failed(Duplicate))
      else Transact(t, s, v, Output(assertions.rows, relations.rows))
  }

  /** Every active receipt of a source becomes historical; its rows stay. */
  function Invalidate(t: Tables, source: Source): Tables {
    t.(receipts :=
      (map k | k in t.receipts :: if k.source == source then t.receipts[k].(active := false) else t.receipts[k]))
  }

  /** A message edit; changing its content fires the invalidation trigger. */
  function Edit(t: Tables, source: Source, m: Message): Tables {
    var edited := t.(messages := t.messages[source := m]);
    if source in t.messages && t.messages[source].content != m.content then Invalidate(edited, source) else edited
  }

  function Delete(t: Tables, source: Source): Tables {
    Invalidate(t.(messages := t.messages - {source}), source)
  }

  /** Removing a version's receipts fires the trigger that removes their rows and every relation that touches them. */
  function RemoveVersion(t: Tables, v: Version): Tables {
    t.(receipts := (map k | k in t.receipts && k.version != v :: t.receipts[k]),
       assertions := (set a | a in t.assertions && a.key.version != v),
       relations := (set r | r in t.relations && !Touches(r, v)))
  }

  predicate Touches(r: Relation, v: Version) {
    r.key.version == v || r.from.key.version == v || r.target.key.version == v
  }

  // ---- what every operation keeps ----------------------------------------

  /** An active receipt is for the content its source has now; so a source has at most one per version. */
  ghost predicate ActiveCurrent(t: Tables) {
    forall k :: k in t.receipts && t.receipts[k].active ==>
      k.source in t.messages && t.messages[k.source].content == k.content
  }

  /** Every receipt, active or not, holds exactly the assertions it was published with. */
  ghost predicate RowsHeld(t: Tables) {
    && (forall k :: k in t.receipts ==> forall a :: a in t.receipts[k].output.assertions ==>
      a in t.assertions && a.key == k)
    && (forall a :: a in t.assertions ==> a.key in t.receipts && a in t.receipts[a.key].output.assertions)
  }

  /** Every relation was published by its receipt, and both its ends exist. */
  ghost predicate RelationsHeld(t: Tables) {
    forall r :: r in t.relations ==>
      && r.key in t.receipts && r in t.receipts[r.key].output.relations
      && r.from in t.assertions && r.target in t.assertions
  }

  ghost predicate Inv(t: Tables) {
    ActiveCurrent(t) && RowsHeld(t) && RelationsHeld(t)
  }

  /** At most one active receipt per source and version. */
  lemma OneActive(t: Tables, a: Key, b: Key)
    requires Inv(t) && Active(t, a) && Active(t, b) && a.source == b.source && a.version == b.version
    ensures a == b
  {
  }

  lemma TransactKeeps(t: Tables, s: Snapshot, v: Version, output: Output)
    requires Inv(t) && (forall a :: a in output.assertions ==> a.key == KeyOf(s, v))
      && (forall r :: r in output.relations ==> r.key == KeyOf(s, v))
    ensures Inv(Transact(t, s, v, output).0)
    ensures Transact(t, s, v, output).1.Failed? ==> Transact(t, s, v, output).0 == t
  {
  }

  /** A publication keeps the invariant, and a failed one changes nothing. */
  lemma PublishKeeps(t: Tables, s: Snapshot, v: Version, cs: seq<Candidate>, rs: seq<RelationCandidate>)
    requires Inv(t)
    ensures Inv(Publish(t, s, v, cs, rs).0)
    ensures Publish(t, s, v, cs, rs).1.Failed? ==> Publish(t, s, v, cs, rs).0 == t
  {
    var assertions, relations := PrepareAssertions(s, v, cs), PrepareRelations(s, v, rs);
    if assertions.Rows? && relations.Rows? {
      TransactKeeps(t, s, v, Output(assertions.rows, relations.rows));
    }
  }

  lemma InvalidateKeeps(t: Tables, source: Source)
    requires RowsHeld(t) && RelationsHeld(t)
    requires forall k :: k in t.receipts && t.receipts[k].active && k.source != source ==>
      k.source in t.messages && t.messages[k.source].content == k.content
    ensures Inv(Invalidate(t, source))
  {
  }

  lemma RemoveKeeps(t: Tables, v: Version)
    requires Inv(t)
    ensures Inv(RemoveVersion(t, v))
  {
  }

  lemma EditKeeps(t: Tables, source: Source, m: Message)
    requires Inv(t)
    ensures Inv(Edit(t, source, m))
  {
    var edited := t.(messages := t.messages[source := m]);
    if source in t.messages && t.messages[source].content != m.content {
      InvalidateKeeps(edited, source);
    }
  }

  lemma DeleteKeeps(t: Tables, source: Source)
    requires Inv(t)
    ensures Inv(Delete(t, source))
  {
    InvalidateKeeps(t.(messages := t.messages - {source}), source);
  }

  // ---- invalidate, then publish again ------------------------------------

  /** Publishing the same output again after an invalidation restores the receipt and every row; only the
      source's receipts of other versions stay historical. */
  lemma RepublishRestores(t: Tables, s: Snapshot, v: Version)
    requires Inv(t) && Current(t, s) && Active(t, KeyOf(s, v)) && t.receipts[KeyOf(s, v)].meta == s.message.meta
    ensures var (t', result) := Transact(Invalidate(t, s.source), s, v, t.receipts[KeyOf(s, v)].output);
      && result == AlreadyCurrent && t'.assertions == t.assertions && t'.relations == t.relations
        && t'.messages == t.messages
      && t'.receipts.Keys == t.receipts.Keys
      && (forall k :: k in t.receipts ==>
            t'.receipts[k] == if k.source == s.source && k.version != v then t.receipts[k].(active := false)
              else t.receipts[k])
  {
    var k, u := KeyOf(s, v), Invalidate(t, s.source);
    assert !ActiveFor(u, s.source, v);
    forall h | h in t.receipts && h.source == s.source && h.version == v && h != k ensures !t.receipts[h].active {
      if t.receipts[h].active {
        OneActive(t, h, k);
      }
    }
  }

  /** Anything else for the same source content and version is refused, and changes nothing. */
  lemma OtherOutputRefused(t: Tables, s: Snapshot, v: Version, output: Output)
    requires Inv(t) && Current(t, s) && KeyOf(s, v) in t.receipts && t.receipts[KeyOf(s, v)].output != output
    ensures Transact(t, s, v, output) == (t, Failed(Conflict))
  {
  }

  // ---- pending sources ---------------------------------------------------

  predicate HasCurrentReceipt(t: Tables, s: Snapshot, v: Version) {
    Active(t, KeyOf(s, v))
  }

  /** The rebuild plan asks only for any active receipt of the version, without comparing hashes; in every
      kept state that is the same question. */
  lemma PendingExactly(t: Tables, source: Source, v: Version)
    requires Inv(t) && source in t.messages
    ensures ActiveFor(t, source, v) <==> HasCurrentReceipt(t, Snapshot(source, t.messages[source]), v)
  {
    var k := Key(source, v, t.messages[source].content);
    if Active(t, k) {
      assert k.source == source;
    }
  }
}
