/**
  The bounded retrieval controller: one state per retrieval, with candidate refs and leads held in insertion
  order, requirement slots that only fill up, and hard budgets for rounds, refs, leads, tokens and characters.
 */
module Retrieval {
  import opened Wrappers

  const MaxRounds: nat := 3
  const MaxCandidates: nat := 40
  const MaxLeads: nat := 24
  const MaxTokens: nat := 7500
  const MaxChars: nat := 40000
  const MaxRequirements: nat := 12
  const MaxActive: nat := 32
  const TimeToLive: nat := 900

  datatype Item = Item(id: string, tokens: nat, chars: nat)
  datatype Requirement = Requirement(slot: string, minimum: nat)
  datatype Status = Active | Ready | Fallback | Finished | Abandoned

  /** `slots[k]` are the refs given to the k-th requirement. */
  datatype State = State(requirements: seq<Requirement>, candidates: seq<Item>, leads: seq<Item>,
    slots: seq<seq<string>>,
                         rounds: nat, status: Status, tokens: nat, chars: nat, exhausted: bool, updated: int)

  predicate HasId(items: seq<Item>, id: string) {
    exists k :: 0 <= k < |items| && items[k].id == id
  }

  function Tokens(items: seq<Item>): nat {
    if items == [] then 0 else Tokens(items[..|items| - 1]) + items[|items| - 1].tokens
  }

  function Chars(items: seq<Item>): nat {
    if items == [] then 0 else Chars(items[..|items| - 1]) + items[|items| - 1].chars
  }

  // ---- requirements ------------------------------------------------------

  function SumMinimum(rs: seq<Requirement>): nat {
    if rs == [] then 0 else SumMinimum(rs[..|rs| - 1]) + rs[|rs| - 1].minimum
  }

  predicate RequirementsOk(rs: seq<Requirement>) {
    && 1 <= |rs| <= MaxRequirements
    && (forall k :: 0 <= k < |rs| ==> 1 <= rs[k].minimum <= MaxCandidates)
    && (forall k, l :: 0 <= k < l < |rs| ==> rs[k].slot != rs[l].slot)
    && SumMinimum(rs) <= MaxCandidates
  }

  function SlotIndex(rs: seq<Requirement>, slot: string): (k: Option<nat>)
    ensures k.Some? ==> k.value < |rs| && rs[k.value].slot == slot
    ensures k.None? ==> forall l :: 0 <= l < |rs| ==> rs[l].slot != slot
  {
    if rs == [] then None
    else if rs[|rs| - 1].slot == slot then Some(|rs| - 1)
    else SlotIndex(rs[..|rs| - 1], slot)
  }

  predicate Open(s: State, k: nat)
    requires k < |s.requirements| && |s.slots| == |s.requirements|
  {
    |s.slots[k]| < s.requirements[k].minimum
  }

  function OpenSlots(s: State): (open: seq<nat>)
    requires |s.slots| == |s.requirements|
    ensures forall k: nat :: k in open <==> k < |s.requirements| && Open(s, k)
  {
    OpenBelow(s, |s.requirements|)
  }

  function OpenBelow(s: State, n: nat): (open: seq<nat>)
    requires n <= |s.requirements| && |s.slots| == |s.requirements|
    ensures forall k: nat :: k in open <==> k < n && Open(s, k)
  {
    if n == 0 then [] else OpenBelow(s, n - 1) + if Open(s, n - 1) then [n - 1] else []
  }

  // ---- resolving slots ---------------------------------------------------

  datatype Resolution = Resolution(slot: string, refs: seq<string>)

  /** Refs are added one by one until one is not held; what was added before it stays. */
  function AddRefs(s: State, k: nat, refs: seq<string>): (r: (State, bool))
    requires k < |s.slots|
    ensures |r.0.slots| == |s.slots|
  {
    if refs == [] then (s, true)
    else
      var (before, ok) := AddRefs(s, k, refs[..|refs| - 1]);
      var id := refs[|refs| - 1];
      if !ok || !HasId(s.candidates, id) then (before, false)
      else (if id in before.slots[k] then before else before.(slots := before.slots[k := before.slots[k] + [id]]), true)
  }

  function Resolve(s: State, raw: seq<Resolution>): (r: (State, bool))
    requires |s.slots| == |s.requirements|
    ensures |r.0.slots| == |r.0.requirements|
  {
    if |raw| > MaxRequirements then (s, false) else ResolveAll(s, raw)
  }

  function ResolveAll(s: State, raw: seq<Resolution>): (r: (State, bool))
    requires |s.slots| == |s.requirements|
    ensures |r.0.slots| == |r.0.requirements|
  {
    if raw == [] then (s, true)
    else
      var (before, ok) := ResolveAll(s, raw[..|raw| - 1]);
      if !ok then (before, false) else ResolveOne(before, raw[|raw| - 1])
  }

  function ResolveOne(s: State, item: Resolution): (r: (State, bool))
    requires |s.slots| == |s.requirements|
    ensures |r.0.slots| == |r.0.requirements|
  {
    var k := SlotIndex(s.requirements, item.slot);
    if k.None? || item.refs == [] || |item.refs| > MaxCandidates then (s, false)
    else
      var r := AddRefs(s, k.value, item.refs);
      AddRefsFrame(s, k.value, item.refs);
      r
  }

  lemma {:induction false} AddRefsFrame(s: State, k: nat, refs: seq<string>)
    requires k < |s.slots|
    ensures AddRefs(s, k, refs).0 == s.(slots := AddRefs(s, k, refs).0.slots)
  {
    if refs != [] {
      AddRefsFrame(s, k, refs[..|refs| - 1]);
    }
  }

  // ---- taking results within the budgets ---------------------------------

  /** Items held so far with the running accounts; `stopped` once one did not fit. */
  datatype Account = Account(items: seq<Item>, tokens: nat, chars: nat, added: seq<Item>, stopped: bool)

  predicate Fits(a: Account, item: Item, limit: nat) {
    |a.items| < limit && a.tokens + item.tokens <= MaxTokens && a.chars + item.chars <= MaxChars
  }

  function TakeOne(a: Account, item: Item, limit: nat): Account {
    if a.stopped || HasId(a.items, item.id) then a
    else if !Fits(a, item, limit) then a.(stopped := true)
    else Account(a.items + [item], a.tokens + item.tokens, a.chars + item.chars, a.added + [item], false)
  }

  function Take(a: Account, items: seq<Item>, limit: nat): Account {
    if items == [] then a else TakeOne(Take(a, items[..|items| - 1], limit), items[|items| - 1], limit)
  }

  method TakeItems(a: Account, items: seq<Item>, limit: nat) returns (b: Account)
    requires !a.stopped
    ensures b == Take(a, items, limit)
  {
    b := a;
    var k := 0;
    while k < |items| && !b.stopped
      invariant 0 <= k <= |items| && b == Take(a, items[..k], limit)
    {
      assert items[..k + 1][..k] == items[..k];
      if !HasId(b.items, items[k].id) {
        if !Fits(b, items[k], limit) {
          b := b.(stopped := true);
        } else {
          b := Account(b.items + [items[k]], b.tokens + items[k].tokens, b.chars + items[k].chars,
            b.added + [items[k]], false);
        }
      }
      k := k + 1;
    }
    TakeStopped(a, items, k, limit);
  }

  lemma {:induction false} TakeStopped(a: Account, items: seq<Item>, k: nat, limit: nat)
    requires k <= |items| && (k == |items| || Take(a, items[..k], limit).stopped)
    ensures Take(a, items, limit) == Take(a, items[..k], limit)
    decreases |items| - k
  {
    if k < |items| {
      assert items[..k + 1][..k] == items[..k];
      TakeStopped(a, items, k + 1, limit);
    } else {
      assert items[..k] == items;
    }
  }

  /** The running accounts are exact: what was added is new, in order, and its cost with it. */
  ghost predicate Exact(start: seq<Item>, b: Account, limit: nat, other: nat, otherChars: nat) {
    && b.tokens == Tokens(b.items) + other && b.chars == Chars(b.items) + otherChars && b.tokens <= MaxTokens
      && b.chars <= MaxChars
    && |b.items| <= limit && NoRepeat(b.items) && b.items == start + b.added
  }

  lemma {:induction false} TakeKeeps(a: Account, items: seq<Item>, limit: nat, other: nat, otherChars: nat)
    requires Exact(a.items, a, limit, other, otherChars) && a.added == []
    ensures Exact(a.items, Take(a, items, limit), limit, other, otherChars)
  {
    if items != [] {
      TakeKeeps(a, items[..|items| - 1], limit, other, otherChars);
    }
  }

  ghost predicate NoRepeat(items: seq<Item>) {
    forall k, l :: 0 <= k < l < |items| ==> items[k].id != items[l].id
  }

  // ---- what every state keeps --------------------------------------------

  ghost predicate Valid(s: State) {
    && RequirementsOk(s.requirements) && |s.slots| == |s.requirements|
    && NoRepeat(s.candidates) && NoRepeat(s.leads)
    && |s.candidates| <= MaxCandidates && |s.leads| <= MaxLeads && s.rounds <= MaxRounds
    && s.tokens == Tokens(s.candidates) + Tokens(s.leads) && s.tokens <= MaxTokens
    && s.chars == Chars(s.candidates) + Chars(s.leads) && s.chars <= MaxChars
    && (forall k :: 0 <= k < |s.slots| ==> RefsHeld(s.candidates, s.slots[k]))
    && (s.status == Finished ==> forall k :: 0 <= k < |s.slots| ==> s.requirements[k].minimum <= Count(s.slots[k]))
  }

  ghost predicate RefsHeld(candidates: seq<Item>, refs: seq<string>) {
    forall id :: id in refs ==> HasId(candidates, id)
  }

  /** How many different refs. */
  function Count(refs: seq<string>): nat {
    |RefSet(refs)|
  }

  function RefSet(refs: seq<string>): set<string> {
    set id | id in refs
  }

  predicate Prefix<T(==)>(a: seq<T>, b: seq<T>) {
    |a| <= |b| && b[..|a|] == a
  }

  /** A state only ever grows: no slot loses a ref, nothing held is dropped, and nothing becomes active again. */
  ghost predicate Grows(s: State, t: State) {
    && t.requirements == s.requirements && |t.slots| == |s.slots| == |s.requirements|
    && (forall k :: 0 <= k < |s.slots| ==> Prefix(s.slots[k], t.slots[k]))
    && Prefix(s.candidates, t.candidates) && Prefix(s.leads, t.leads) && s.rounds <= t.rounds
    && (t.status == Active ==> s.status == Active) && (s.exhausted ==> t.exhausted)
  }

  /** A closed slot never reopens. */
  lemma ClosedStays(s: State, t: State, k: nat)
    requires Grows(s, t) && k < |s.requirements| && !Open(s, k)
    ensures !Open(t, k)
  {
    assert Prefix(s.slots[k], t.slots[k]);
  }

  lemma PrefixSelf<T>(a: seq<T>)
    ensures Prefix(a, a)
  {
    assert a[..|a|] == a;
  }

  lemma GrowsSelf(s: State)
    requires |s.slots| == |s.requirements|
    ensures Grows(s, s)
  {
    PrefixSelf(s.candidates);
    PrefixSelf(s.leads);
    forall k | 0 <= k < |s.slots| ensures Prefix(s.slots[k], s.slots[k]) {
      PrefixSelf(s.slots[k]);
    }
  }

  lemma GrowsOn(s: State, t: State, u: State)
    requires Grows(s, t) && Grows(t, u)
    ensures Grows(s, u)
  {
    forall k | 0 <= k < |s.slots| ensures Prefix(s.slots[k], u.slots[k]) {
      assert Prefix(s.slots[k], t.slots[k]) && Prefix(t.slots[k], u.slots[k]);
      assert u.slots[k][..|s.slots[k]|] == u.slots[k][..|t.slots[k]|][..|s.slots[k]|];
    }
    assert u.candidates[..|s.candidates|] == u.candidates[..|t.candidates|][..|s.candidates|];
    assert u.leads[..|s.leads|] == u.leads[..|t.leads|][..|s.leads|];
  }

  /** Adding refs touches one slot, and gives it only refs that are held. */
  lemma {:induction false} AddRefsKeeps(s: State, k: nat, refs: seq<string>)
    requires k < |s.slots| && RefsHeld(s.candidates, s.slots[k])
    ensures var t := AddRefs(s, k, refs).0;
      && t == s.(slots := t.slots) && |t.slots| == |s.slots| && Prefix(s.slots[k], t.slots[k])
        && RefsHeld(s.candidates, t.slots[k])
      && (forall l :: 0 <= l < |s.slots| && l != k ==> t.slots[l] == s.slots[l])
      && (NoDuplicate(s.slots[k]) ==> NoDuplicate(t.slots[k]))
  {
    PrefixSelf(s.slots[k]);
    if refs != [] {
      AddRefsKeeps(s, k, refs[..|refs| - 1]);
    }
  }

  ghost predicate NoDuplicate(refs: seq<string>) {
    forall i, j :: 0 <= i < j < |refs| ==> refs[i] != refs[j]
  }

  lemma {:induction false} CountGrows(a: seq<string>, b: seq<string>)
    requires Prefix(a, b)
    ensures Count(a) <= Count(b)
  {
    var x, y := RefSet(a), RefSet(b);
    assert forall id :: id in a ==> id in b by {
      forall id | id in a ensures id in b {
        var k :| 0 <= k < |a| && a[k] == id;
        assert b[k] == b[..|a|][k];
      }
    }
    SubsetCount(x, y);
  }

  lemma SubsetCount<T>(x: set<T>, y: set<T>)
    requires x <= y
    ensures |x| <= |y|
  {
    assert y == x + (y - x);
  }

  /** Grown from a valid state with the same accounts, only the slots changed. */
  lemma SlotsKeepValid(s: State, t: State)
    requires Valid(s) && t == s.(slots := t.slots) && |t.slots| == |s.slots|
    requires forall k :: 0 <= k < |s.slots| ==> Prefix(s.slots[k], t.slots[k]) && RefsHeld(s.candidates, t.slots[k])
    ensures Valid(t) && Grows(s, t)
  {
    PrefixSelf(s.candidates);
    PrefixSelf(s.leads);
    if s.status == Finished {
      forall k | 0 <= k < |t.slots| ensures t.requirements[k].minimum <= Count(t.slots[k]) {
        CountGrows(s.slots[k], t.slots[k]);
      }
    }
  }

  lemma ResolveOneKeeps(s: State, item: Resolution)
    requires Valid(s)
    ensures Valid(ResolveOne(s, item).0) && Grows(s, ResolveOne(s, item).0)
    ensures ResolveOne(s, item).0 == s.(slots := ResolveOne(s, item).0.slots)
  {
    GrowsSelf(s);
    var k := SlotIndex(s.requirements, item.slot);
    if k.Some? && item.refs != [] && |item.refs| <= MaxCandidates {
      var t := AddRefs(s, k.value, item.refs).0;
      AddRefsKeeps(s, k.value, item.refs);
      forall l | 0 <= l < |s.slots| ensures Prefix(s.slots[l], t.slots[l]) && RefsHeld(s.candidates, t.slots[l]) {
        PrefixSelf(s.slots[l]);
      }
      SlotsKeepValid(s, t);
    }
  }

  lemma {:induction false} ResolveAllKeeps(s: State, raw: seq<Resolution>)
    requires Valid(s)
    ensures Valid(ResolveAll(s, raw).0) && Grows(s, ResolveAll(s, raw).0)
    ensures ResolveAll(s, raw).0 == s.(slots := ResolveAll(s, raw).0.slots)
  {
    GrowsSelf(s);
    if raw != [] {
      var before := ResolveAll(s, raw[..|raw| - 1]).0;
      ResolveAllKeeps(s, raw[..|raw| - 1]);
      ResolveOneKeeps(before, raw[|raw| - 1]);
    }
  }

  lemma ResolveKeeps(s: State, raw: seq<Resolution>)
    requires Valid(s)
    ensures Valid(Resolve(s, raw).0) && Grows(s, Resolve(s, raw).0)
    ensures Resolve(s, raw).0 == s.(slots := Resolve(s, raw).0.slots)
  {
    GrowsSelf(s);
    ResolveAllKeeps(s, raw);
  }

  // ---- one search round --------------------------------------------------

  function Account0(items: seq<Item>, tokens: nat, chars: nat): Account {
    Account(items, tokens, chars, [], false)
  }

  predicate MaySearch(r: State, missing: string)
    requires |r.slots| == |r.requirements|
  {
    var k := SlotIndex(r.requirements, missing);
    k.Some? && Open(r, k.value)
  }

  /** What a dispatched tool's exact evidence and leads change; both are empty when the tool failed. */
  function Round(r: State, found: seq<Item>, leads: seq<Item>, now: int): State {
    var c := Take(Account0(r.candidates, r.tokens, r.chars), found, MaxCandidates);
    var l := Take(Account0(r.leads, c.tokens, c.chars), leads, MaxLeads);
    var progress := c.added != [] || l.added != [];
    r.(candidates := c.items, leads := l.items, tokens := l.tokens, chars := l.chars, rounds := r.rounds + 1,
      updated := now,
       status := if progress then r.status else Fallback,
       exhausted := r.exhausted || c.stopped || l.stopped || (progress && r.rounds + 1 >= MaxRounds))
  }

  /** The state after a search and whether a round was made; resolutions count even when it is refused. */
  function Searched(s: State, raw: seq<Resolution>, missing: string, toolOk: bool, found: seq<Item>, leads: seq<Item>,
                    now: int): (State, bool)
    requires |s.slots| == |s.requirements|
  {
    if s.status != Active then (s, false)
    else
      var (r, ok) := Resolve(s, raw);
      if !ok || !MaySearch(r, missing) then (r, false)
      else if r.exhausted || r.rounds >= MaxRounds then (r.(exhausted := true), false)
      else if !toolOk then (r, false)
      else (Round(r, found, leads, now), true)
  }

  lemma RoundKeeps(r: State, found: seq<Item>, leads: seq<Item>, now: int)
    requires Valid(r) && r.status == Active && r.rounds < MaxRounds
    ensures Valid(Round(r, found, leads, now)) && Grows(r, Round(r, found, leads, now))
  {
    var a := Account0(r.candidates, r.tokens, r.chars);
    assert r.candidates + [] == r.candidates && r.leads + [] == r.leads;
    TakeKeeps(a, found, MaxCandidates, Tokens(r.leads), Chars(r.leads));
    var c := Take(a, found, MaxCandidates);
    var b := Account0(r.leads, c.tokens, c.chars);
    TakeKeeps(b, leads, MaxLeads, Tokens(c.items), Chars(c.items));
    var t := Round(r, found, leads, now);
    assert Prefix(r.candidates, t.candidates) && Prefix(r.leads, t.leads);
    forall k | 0 <= k < |r.slots| ensures Prefix(r.slots[k], t.slots[k]) && RefsHeld(t.candidates, t.slots[k]) {
      PrefixSelf(r.slots[k]);
      HeldGrows(r.candidates, t.candidates, r.slots[k]);
    }
  }

  lemma HeldGrows(a: seq<Item>, b: seq<Item>, refs: seq<string>)
    requires Prefix(a, b) && RefsHeld(a, refs)
    ensures RefsHeld(b, refs)
  {
    forall id | id in refs ensures HasId(b, id) {
      var k :| 0 <= k < |a| && a[k].id == id;
      assert b[k] == b[..|a|][k];
    }
  }

  /** A search keeps every account and budget, and a refused one changes nothing but slots and the exhausted mark. */
  lemma SearchKeeps(s: State, raw: seq<Resolution>, missing: string, toolOk: bool, found: seq<Item>, leads: seq<Item>,
                    now: int)
    requires Valid(s)
    ensures var (t, made) := Searched(s, raw, missing, toolOk, found, leads, now);
      && Valid(t) && Grows(s, t)
      && (made ==> s.status == Active && t.rounds == s.rounds + 1)
      && (!made ==> t == s.(slots := t.slots, exhausted := t.exhausted))
  {
    GrowsSelf(s);
    if s.status == Active {
      ResolveKeeps(s, raw);
      var r := Resolve(s, raw).0;
      GrowsSelf(r);
      if r.rounds < MaxRounds {
        RoundKeeps(r, found, leads, now);
      }
    }
  }

  // ---- finishing ---------------------------------------------------------

  datatype Compute = NoCompute | Rejected | Computed | Failed
  datatype Finishing = Done(refs: seq<string>) | StillOpen(open: seq<nat>) | EvidenceOnly(refs: seq<string>) | Raised

  function Dedup(refs: seq<string>): (d: seq<string>)
    ensures forall id :: id in d <==> id in refs
    ensures NoDuplicate(d)
  {
    if refs == [] then []
    else
      var d, id := Dedup(refs[..|refs| - 1]), refs[|refs| - 1];
      assert forall x :: x in refs <==> x in refs[..|refs| - 1] || x == id;
      if id in d then d else d + [id]
  }

  function AllRefs(slots: seq<seq<string>>): (refs: seq<string>)
    ensures forall id :: id in refs <==> exists k :: 0 <= k < |slots| && id in slots[k]
  {
    if slots == [] then []
    else
      assert forall k :: 0 <= k < |slots| - 1 ==> slots[..|slots| - 1][k] == slots[k];
      AllRefs(slots[..|slots| - 1]) + slots[|slots| - 1]
  }

  function Common(refs: seq<string>, slot: seq<string>): set<string> {
    set id | id in refs && id in slot
  }

  /** The selection names only held refs and gives every slot its minimum of different ones. */
  ghost predicate Satisfies(s: State, refs: seq<string>) {
    && |s.slots| == |s.requirements| && NoDuplicate(refs) && 1 <= |refs| <= MaxCandidates
    && RefsHeld(s.candidates, refs)
    && (forall k :: 0 <= k < |s.slots| ==> s.requirements[k].minimum <= |Common(refs, s.slots[k])|)
  }

  predicate Accepts(s: State, refs: seq<string>)
    requires |s.slots| == |s.requirements|
  {
    && 1 <= |refs| <= MaxCandidates
    && (forall id :: id in refs ==> HasId(s.candidates, id))
    && (forall k :: 0 <= k < |s.slots| ==> s.requirements[k].minimum <= |Common(refs, s.slots[k])|)
  }

  /** Once the resolutions are in; `selected` empty means every slot's refs. */
  function Concluded(r: State, selected: seq<string>, compute: Compute, now: int): (State, Finishing)
    requires |r.slots| == |r.requirements|
  {
    if OpenSlots(r) != [] then (r.(status := Fallback, updated := now), StillOpen(OpenSlots(r)))
    else Chosen(r, Dedup(if selected == [] then AllRefs(r.slots) else selected), compute, now)
  }

  function Chosen(r: State, refs: seq<string>, compute: Compute, now: int): (State, Finishing)
    requires |r.slots| == |r.requirements|
  {
    if !Accepts(r, refs) || compute == Rejected then (r, Raised)
    else if compute == Failed then (r.(status := Fallback, updated := now), EvidenceOnly(refs))
    else (r.(status := Finished, updated := now), Done(refs))
  }

  function FinishedState(s: State, raw: seq<Resolution>, selected: seq<string>, compute: Compute,
                         now: int): (State, Finishing)
    requires |s.slots| == |s.requirements|
  {
    if s.status == Finished || s.status == Abandoned then (s, Raised)
    else
      var (r, ok) := Resolve(s, raw);
      if !ok then (r, Raised) else Concluded(r, selected, compute, now)
  }

  lemma AcceptedCounts(r: State, refs: seq<string>)
    requires Valid(r) && OpenSlots(r) == [] && Accepts(r, refs)
    ensures forall k :: 0 <= k < |r.slots| ==> r.requirements[k].minimum <= Count(r.slots[k]) && !Open(r, k)
  {
    forall k | 0 <= k < |r.slots| ensures r.requirements[k].minimum <= Count(r.slots[k]) && !Open(r, k) {
      SubsetCount(Common(refs, r.slots[k]), RefSet(r.slots[k]));
      assert k !in OpenSlots(r);
    }
  }

  lemma StatusMoves(r: State, status: Status, now: int)
    requires Valid(r) && r.status != Finished && status != Active
    requires status == Finished ==> forall k :: 0 <= k < |r.slots| ==> r.requirements[k].minimum <= Count(r.slots[k])
    ensures Valid(r.(status := status, updated := now)) && Grows(r, r.(status := status, updated := now))
  {
    GrowsSelf(r);
  }

  lemma ChoiceKeeps(r: State, refs: seq<string>, compute: Compute, now: int)
    requires Valid(r) && r.status != Finished && OpenSlots(r) == [] && NoDuplicate(refs)
    ensures var (t, f) := Chosen(r, refs, compute, now);
      && Valid(t) && Grows(r, t)
      && (t.status == Finished ==> f.Done?)
      && (f.Done? ==> t.status == Finished && Satisfies(t, f.refs) && forall k :: 0 <= k < |t.slots| ==> !Open(t, k))
      && (f.Raised? ==> t == r)
  {
    GrowsSelf(r);
    StatusMoves(r, Fallback, now);
    if Accepts(r, refs) {
      AcceptedCounts(r, refs);
      StatusMoves(r, Finished, now);
    }
  }

  lemma ConcludeKeeps(r: State, selected: seq<string>, compute: Compute, now: int)
    requires Valid(r) && r.status != Finished
    ensures var (t, f) := Concluded(r, selected, compute, now);
      && Valid(t) && Grows(r, t)
      && (t.status == Finished ==> f.Done?)
      && (f.Done? ==> t.status == Finished && Satisfies(t, f.refs) && forall k :: 0 <= k < |t.slots| ==> !Open(t, k))
      && (f.Raised? ==> t == r)
  {
    if OpenSlots(r) != [] {
      StatusMoves(r, Fallback, now);
    } else {
      ChoiceKeeps(r, Dedup(if selected == [] then AllRefs(r.slots) else selected), compute, now);
    }
  }

  /** A retrieval finishes only with a selection that gives every slot its minimum of different held refs. */
  lemma FinishKeeps(s: State, raw: seq<Resolution>, selected: seq<string>, compute: Compute, now: int)
    requires Valid(s)
    ensures var (t, f) := FinishedState(s, raw, selected, compute, now);
      && Valid(t) && Grows(s, t)
      && (t.status == Finished && s.status != Finished ==> f.Done?)
      && (f.Done? ==> t.status == Finished && Satisfies(t, f.refs) && forall k :: 0 <= k < |t.slots| ==> !Open(t, k))
      && (f.Raised? ==> t == s.(slots := t.slots))
  {
    GrowsSelf(s);
    if s.status != Finished && s.status != Abandoned {
      ResolveKeeps(s, raw);
      var (r, ok) := Resolve(s, raw);
      if ok {
        ConcludeKeeps(r, selected, compute, now);
        GrowsOn(s, r, Concluded(r, selected, compute, now).0);
      }
    }
  }

  /** With every slot closed by different refs, selecting them all is always accepted. */
  lemma DefaultAccepted(r: State)
    requires Valid(r) && OpenSlots(r) == [] && (forall k :: 0 <= k < |r.slots| ==> NoDuplicate(r.slots[k]))
    ensures Accepts(r, Dedup(AllRefs(r.slots)))
  {
    var refs := Dedup(AllRefs(r.slots));
    forall k | 0 <= k < |r.slots| ensures r.requirements[k].minimum <= |Common(refs, r.slots[k])| {
      assert k !in OpenSlots(r);
      DistinctCount(r.slots[k]);
      assert Common(refs, r.slots[k]) == RefSet(r.slots[k]);
    }
    forall id | id in refs ensures HasId(r.candidates, id) {
      var k :| 0 <= k < |r.slots| && id in r.slots[k];
      assert RefsHeld(r.candidates, r.slots[k]);
    }
    HeldBound(r.candidates, refs);
    DistinctCount(refs);
    SubsetCount(Common(refs, r.slots[0]), RefSet(refs));
  }

  lemma {:induction false} DistinctCount(refs: seq<string>)
    requires NoDuplicate(refs)
    ensures Count(refs) == |refs|
  {
    if refs != [] {
      var front, last := refs[..|refs| - 1], refs[|refs| - 1];
      DistinctCount(front);
      assert RefSet(refs) == RefSet(front) + {last};
    }
  }

  lemma HeldBound(candidates: seq<Item>, refs: seq<string>)
    requires NoDuplicate(refs) && RefsHeld(candidates, refs)
    ensures |refs| <= |candidates|
  {
    DistinctCount(refs);
    IdCount(candidates);
    SubsetCount(RefSet(refs), Ids(candidates));
  }

  function Ids(items: seq<Item>): (ids: set<string>)
    ensures forall id :: id in ids <==> HasId(items, id)
  {
    if items == [] then {}
    else
      assert forall id :: HasId(items, id) <==> HasId(items[..|items| - 1], id) || items[|items| - 1].id == id by {
        forall id | HasId(items, id) ensures HasId(items[..|items| - 1], id) || items[|items| - 1].id == id {
          var k :| 0 <= k < |items| && items[k].id == id;
          assert k < |items| - 1 ==> items[..|items| - 1][k].id == id;
        }
      }
      Ids(items[..|items| - 1]) + {items[|items| - 1].id}
  }

  lemma {:induction false} IdCount(items: seq<Item>)
    ensures |Ids(items)| <= |items|
  {
    if items != [] {
      IdCount(items[..|items| - 1]);
    }
  }

  // ---- starting, from scratch or from a cached view ----------------------

  /** A dictionary of items by id, in insertion order: a later item replaces an earlier one in place. */
  function Put(held: seq<Item>, item: Item): seq<Item> {
    if held == [] then [item]
    else if held[|held| - 1].id == item.id then held[..|held| - 1] + [item]
    else if HasId(held[..|held| - 1], item.id) then Put(held[..|held| - 1], item) + [held[|held| - 1]]
    else held + [item]
  }

  lemma {:induction false} PutIds(held: seq<Item>, item: Item)
    ensures HasId(held, item.id) ==> |Put(held, item)| == |held| && forall k :: 0 <= k < |held| ==>
      Put(held, item)[k].id == held[k].id
    ensures !HasId(held, item.id) ==> Put(held, item) == held + [item]
  {
    if held != [] {
      var front := held[..|held| - 1];
      PutIds(front, item);
      if HasId(front, item.id) {
        var k :| 0 <= k < |front| && front[k].id == item.id;
        assert held[k].id == item.id;
      }
      if HasId(held, item.id) && held[|held| - 1].id != item.id {
        var k :| 0 <= k < |held| && held[k].id == item.id;
        assert front[k].id == item.id;
      }
    }
  }

  function ByCitation(items: seq<Item>): seq<Item> {
    if items == [] then [] else Put(ByCitation(items[..|items| - 1]), items[|items| - 1])
  }

  lemma {:induction false} ByCitationDistinct(items: seq<Item>)
    ensures NoRepeat(ByCitation(items))
  {
    if items != [] {
      ByCitationDistinct(items[..|items| - 1]);
      PutIds(ByCitation(items[..|items| - 1]), items[|items| - 1]);
    }
  }

  datatype View = View(dependencies: seq<Item>, slotRefs: map<string, seq<string>>, digestMatches: bool,
    confirmed: bool)

  function SlotRefs(v: View, slot: string): seq<string> {
    if slot in v.slotRefs then v.slotRefs[slot] else []
  }

  predicate ViewFits(rs: seq<Requirement>, v: View) {
    var held := ByCitation(v.dependencies);
    && v.digestMatches && v.confirmed
    && |held| <= MaxCandidates && Tokens(held) <= MaxTokens && Chars(held) <= MaxChars
    && (forall k :: 0 <= k < |rs| ==>
          && (forall id :: id in SlotRefs(v, rs[k].slot) ==> HasId(held, id))
          && rs[k].minimum <= |SlotRefs(v, rs[k].slot)|)
  }

  /** A view that fits makes the retrieval ready at once; any other leaves it empty and active. */
  function Started(rs: seq<Requirement>, view: Option<View>, now: int): Option<State> {
    if !RequirementsOk(rs) then None
    else if view.Some? && ViewFits(rs, view.value) then
      var held := ByCitation(view.value.dependencies);
      Some(State(rs, held, [], seq(|rs|, k requires 0 <= k < |rs| => SlotRefs(view.value, rs[k].slot)), 0, Ready,
                 Tokens(held), Chars(held), false, now))
    else Some(State(rs, [], [], seq(|rs|, k => []), 0, Active, 0, 0, false, now))
  }

  lemma SomeIn(open: seq<nat>)
    ensures open == [] || exists k: nat :: k in open
  {
    if open != [] {
      assert open[0] in open;
    }
  }

  lemma StartKeeps(rs: seq<Requirement>, view: Option<View>, now: int)
    ensures Started(rs, view, now).Some? <==> RequirementsOk(rs)
    ensures Started(rs, view, now).Some? ==> Valid(Started(rs, view, now).value)
    ensures Started(rs, view, now).Some? && Started(rs, view, now).value.status == Ready ==>
      OpenSlots(Started(rs, view, now).value) == []
  {
    if Started(rs, view, now).Some? {
      var s := Started(rs, view, now).value;
      if s.status == Ready {
        forall k | 0 <= k < |rs| ensures !Open(s, k) && RefsHeld(s.candidates, s.slots[k]) {
        }
        SomeIn(OpenSlots(s));
        ByCitationDistinct(view.value.dependencies);
      }
    }
  }

  // ---- the registry ------------------------------------------------------

  predicate Expired(s: State, now: int) {
    s.updated + TimeToLive <= now
  }

  ghost predicate Kept(states: map<string, State>) {
    |states| <= MaxActive && (forall id :: id in states ==> Valid(states[id]))
  }

  /** Between two registry states, every retrieval still there only grew. */
  ghost predicate Onward(before: map<string, State>, after: map<string, State>) {
    forall id :: id in before && id in after ==> Grows(before[id], after[id])
  }

  ghost predicate LeastRecent(s: State, states: map<string, State>) {
    forall k :: k in states ==> s.updated <= states[k].updated
  }

  function Live(states: map<string, State>, now: int): map<string, State> {
    map id | id in states && !Expired(states[id], now) :: states[id]
  }

  /** The expired retrievals went, and only if that left the registry full, one more: a least recently updated. */
  ghost predicate Purged(before: map<string, State>, now: int, after: map<string, State>) {
    var live := Live(before, now);
    if |live| < MaxActive then after == live
    else exists oldest :: oldest in live && LeastRecent(live[oldest], live) && after == live - {oldest}
  }

  /** What looking a retrieval up leaves, and whether it is there: an expired one is dropped. */
  function Looked(states: map<string, State>, id: string, owned: bool, now: int): (map<string, State>, bool) {
    if id !in states || !owned then (states, false)
    else if Expired(states[id], now) then (states - {id}, false)
    else (states, true)
  }

  datatype Op =
    | Start(id: string, requirements: seq<Requirement>, view: Option<View>, now: int)
    | Search(id: string, owned: bool, resolved: seq<Resolution>, missing: string, toolOk: bool, found: seq<Item>,
             leads: seq<Item>, now: int)
    | Finish(id: string, owned: bool, resolved: seq<Resolution>, selected: seq<string>, compute: Compute, now: int)
    | Touch(id: string, owned: bool, now: int)
    | Abandon(id: string, owned: bool, now: int)
    | Clear

  /** What an operation makes of the retrieval it names. */
  function Changed(s: State, op: Op): State
    requires |s.slots| == |s.requirements|
  {
    match op
    case Search(_, _, resolved, missing, toolOk, found, leads, now) =>
      Searched(s, resolved, missing, toolOk, found, leads, now).0
    case Finish(_, _, resolved, selected, compute, now) => FinishedState(s, resolved, selected, compute, now).0
    case Touch(_, _, now) => s.(updated := now)
    case _ => s
  }

  /** One operation on the registry: a new retrieval gets an id nobody holds, and every other operation touches no
      retrieval but the one it names. */
  ghost predicate Happens(before: map<string, State>, op: Op, after: map<string, State>) {
    match op
    case Start(id, requirements, view, now) =>
      && id !in before
      && (if RequirementsOk(requirements) then
            exists kept ::
              Purged(before, now, kept) && after == kept[id := Started(requirements, view, now).value]
          else after == before)
    case Clear => after == map[]
    case Abandon(id, owned, now) =>
      var (held, found) := Looked(before, id, owned, now);
      after == if found then held - {id} else held
    case Search(id, owned, _, _, _, _, _, now) => Updates(before, op, id, owned, now, after)
    case Finish(id, owned, _, _, _, now) => Updates(before, op, id, owned, now, after)
    case Touch(id, owned, now) => Updates(before, op, id, owned, now, after)
  }

  ghost predicate Updates(before: map<string, State>, op: Op, id: string, owned: bool, now: int,
                          after: map<string, State>) {
    var (held, found) := Looked(before, id, owned, now);
    if found then |held[id].slots| == |held[id].requirements| && after == held[id := Changed(held[id], op)]
    else after == held
  }

  lemma PutEach<V>(m: map<string, V>, id: string, v: V, p: V -> bool)
    requires p(v) && (forall k :: k in m ==> p(m[k]))
    ensures var n := m[id := v]; (forall k :: k in n ==> p(n[k])) && |n| <= |m| + 1 && (id in m ==> |n| == |m|)
  {
    if id in m {
      assert m[id := v].Keys == m.Keys;
    } else {
      assert m[id := v].Keys == m.Keys + {id};
    }
  }

  lemma CutEach<V>(m: map<string, V>, ids: set<string>, p: V -> bool)
    requires forall k :: k in m ==> p(m[k])
    ensures (forall k :: k in m - ids ==> p((m - ids)[k])) && |m - ids| <= |m|
    ensures (exists id :: id in ids && id in m) ==> |m - ids| < |m|
  {
    assert (m - ids).Keys == m.Keys - ids;
    SubsetCount(m.Keys - ids, m.Keys);
    if id :| id in ids && id in m {
      SubsetCount(m.Keys - ids, m.Keys - {id});
    }
  }

  lemma OneMore(states: map<string, State>, id: string, s: State)
    requires |states| < MaxActive && Kept(states) && Valid(s)
    ensures Kept(states[id := s])
  {
    PutEach(states, id, s, x => Valid(x));
  }

  lemma Replaced(states: map<string, State>, id: string, s: State)
    requires Kept(states) && id in states && Valid(s) && Grows(states[id], s)
    ensures Kept(states[id := s]) && Onward(states, states[id := s])
  {
    PutEach(states, id, s, x => Valid(x));
    forall k | k in states ensures Grows(states[k], states[id := s][k]) {
      if k != id {
        GrowsSelf(states[k]);
      }
    }
  }

  lemma Fewer(states: map<string, State>, ids: set<string>)
    requires Kept(states)
    ensures Kept(states - ids) && Onward(states, states - ids)
    ensures (exists id :: id in ids && id in states) ==> |states - ids| < |states|
  {
    CutEach(states, ids, x => Valid(x));
    forall k | k in states && k in states - ids ensures Grows(states[k], (states - ids)[k]) {
      GrowsSelf(states[k]);
    }
  }

  /** Some retrievals went; those left are as they were, and none has expired. */
  ghost predicate Within(before: map<string, State>, after: map<string, State>, now: int) {
    forall id :: id in after ==> id in before && after[id] == before[id] && !Expired(after[id], now)
  }

  lemma LiveKeeps(states: map<string, State>, now: int)
    requires Kept(states)
    ensures Kept(Live(states, now)) && Within(states, Live(states, now), now)
  {
    var live := Live(states, now);
    assert live.Keys <= states.Keys;
    SubsetCount(live.Keys, states.Keys);
    forall id | id in live ensures Valid(live[id]) {
      assert live[id] == states[id];
    }
  }

  lemma CutOne(states: map<string, State>, id: string)
    requires Kept(states) && id in states
    ensures Kept(states - {id}) && |states - {id}| < |states|
  {
    Fewer(states, {id});
  }

  /** A purge makes room for one more, and keeps every retrieval it does not drop as it was. */
  lemma PurgedKeeps(before: map<string, State>, now: int, after: map<string, State>)
    requires Kept(before) && Purged(before, now, after)
    ensures Kept(after) && |after| < MaxActive && Within(before, after, now)
  {
    var live := Live(before, now);
    LiveKeeps(before, now);
    if |live| >= MaxActive {
      var oldest :| oldest in live && after == live - {oldest};
      CutOne(live, oldest);
      assert |live| <= MaxActive;
    }
  }

  lemma ChangedKeeps(s: State, op: Op)
    requires Valid(s)
    ensures Valid(Changed(s, op)) && Grows(s, Changed(s, op))
  {
    GrowsSelf(s);
    match op
    case Search(_, _, resolved, missing, toolOk, found, leads, now) =>
      SearchKeeps(s, resolved, missing, toolOk, found, leads, now);
    case Finish(_, _, resolved, selected, compute, now) => FinishKeeps(s, resolved, selected, compute, now);
    case _ =>
  }

  lemma WithinOnward(before: map<string, State>, after: map<string, State>, now: int)
    requires Kept(before) && Within(before, after, now)
    ensures Onward(before, after)
  {
    forall id | id in before && id in after ensures Grows(before[id], after[id]) {
      GrowsSelf(before[id]);
    }
  }

  lemma StartedKeeps(before: map<string, State>, id: string, rs: seq<Requirement>, view: Option<View>, now: int,
                     kept: map<string, State>)
    requires Kept(before) && id !in before && RequirementsOk(rs) && Purged(before, now, kept)
    ensures var after := kept[id := Started(rs, view, now).value]; Kept(after) && Onward(before, after)
  {
    StartKeeps(rs, view, now);
    PurgedKeeps(before, now, kept);
    OneMore(kept, id, Started(rs, view, now).value);
    WithinOnward(before, kept, now);
  }

  lemma OnwardSelf(states: map<string, State>)
    requires Kept(states)
    ensures Onward(states, states)
  {
    forall id | id in states ensures Grows(states[id], states[id]) {
      GrowsSelf(states[id]);
    }
  }

  lemma LookedKeeps(before: map<string, State>, id: string, owned: bool, now: int)
    requires Kept(before)
    ensures Kept(Looked(before, id, owned, now).0) && Onward(before, Looked(before, id, owned, now).0)
  {
    if id in before && owned && Expired(before[id], now) {
      Fewer(before, {id});
    } else {
      OnwardSelf(before);
    }
  }

  lemma AbandonKeeps(before: map<string, State>, id: string, owned: bool, now: int)
    requires Kept(before)
    ensures var (held, found) := Looked(before, id, owned, now);
      var after := if found then held - {id} else held;
      Kept(after) && Onward(before, after)
  {
    LookedKeeps(before, id, owned, now);
    Fewer(before, {id});
  }

  lemma UpdatesKeeps(before: map<string, State>, op: Op, id: string, owned: bool, now: int, after: map<string, State>)
    requires Kept(before) && Updates(before, op, id, owned, now, after)
    ensures Kept(after) && Onward(before, after)
  {
    LookedKeeps(before, id, owned, now);
    if Looked(before, id, owned, now).1 {
      assert Valid(before[id]);
      ChangedKeeps(before[id], op);
      Replaced(before, id, Changed(before[id], op));
    }
  }

  /** Every operation keeps the registry within its limits, and no retrieval still held loses anything. */
  lemma OpKeeps(before: map<string, State>, op: Op, after: map<string, State>)
    requires Kept(before) && Happens(before, op, after)
    ensures Kept(after) && Onward(before, after)
  {
    match op
    case Start(id, rs, view, now) =>
      if RequirementsOk(rs) {
        var kept :| Purged(before, now, kept) && after == kept[id := Started(rs, view, now).value];
        StartedKeeps(before, id, rs, view, now, kept);
      } else {
        OnwardSelf(before);
      }
    case Clear =>
    case Abandon(id, owned, now) => AbandonKeeps(before, id, owned, now);
    case Search(id, owned, _, _, _, _, _, now) => UpdatesKeeps(before, op, id, owned, now, after);
    case Finish(id, owned, _, _, _, now) => UpdatesKeeps(before, op, id, owned, now, after);
    case Touch(id, owned, now) => UpdatesKeeps(before, op, id, owned, now, after);
  }

  ghost predicate IsRun(run: seq<map<string, State>>, ops: seq<Op>) {
    && |run| == |ops| + 1 && run[0] == map[]
    && (forall n :: 0 <= n < |ops| ==> Happens(run[n], ops[n], run[n + 1]))
  }

  /** In every state of every run, the registry holds at most its limit, every retrieval within all its budgets. */
  lemma {:induction false} RunKept(run: seq<map<string, State>>, ops: seq<Op>, n: nat)
    requires IsRun(run, ops) && n < |run|
    ensures Kept(run[n])
  {
    if n > 0 {
      RunKept(run, ops, n - 1);
      OpKeeps(run[n - 1], ops[n - 1], run[n]);
    }
  }

  lemma RunSelf(run: seq<map<string, State>>, ops: seq<Op>, n: nat)
    requires IsRun(run, ops) && n < |run|
    ensures Onward(run[n], run[n])
  {
    RunKept(run, ops, n);
    OnwardSelf(run[n]);
  }

  lemma RunOnward(run: seq<map<string, State>>, ops: seq<Op>, n: nat)
    requires IsRun(run, ops) && n < |ops|
    ensures Onward(run[n], run[n + 1])
  {
    RunKept(run, ops, n);
    OpKeeps(run[n], ops[n], run[n + 1]);
  }

  lemma {:induction false} RunGrows(run: seq<map<string, State>>, ops: seq<Op>, i: nat, j: nat, id: string)
    requires IsRun(run, ops) && i <= j < |run| && (forall m :: i <= m <= j ==> id in run[m])
    ensures Grows(run[i][id], run[j][id])
  {
    if i == j {
      RunSelf(run, ops, i);
    } else {
      RunGrows(run, ops, i, j - 1, id);
      RunOnward(run, ops, j - 1);
      GrowsOn(run[i][id], run[j - 1][id], run[j][id]);
    }
  }

  /** Over any run, as long as a retrieval is held: a slot once closed stays closed, and once it stopped being
      active it never is again. */
  lemma ClosedForGood(run: seq<map<string, State>>, ops: seq<Op>, i: nat, j: nat, id: string, k: nat)
    requires IsRun(run, ops) && i <= j < |run| && (forall m :: i <= m <= j ==> id in run[m])
    ensures Grows(run[i][id], run[j][id])
    ensures var s := run[i][id]; k < |s.requirements| && !Open(s, k) ==> !Open(run[j][id], k)
    ensures run[i][id].status != Active ==> run[j][id].status != Active
  {
    RunGrows(run, ops, i, j, id);
    if k < |run[i][id].requirements| && !Open(run[i][id], k) {
      ClosedStays(run[i][id], run[j][id], k);
    }
  }

  lemma PurgeDrops(before: map<string, State>, now: int, kept: map<string, State>, id: string)
    requires Purged(before, now, kept) && id in before && id !in kept && !Expired(before[id], now)
    ensures |Live(before, now)| >= MaxActive && LeastRecent(before[id], Live(before, now))
  {
    assert id in Live(before, now);
  }

  /** A retrieval leaves the registry only by expiring, by being abandoned or cleared, or by a start that finds the
      registry full of live ones, none of them updated before it. */
  lemma LeavesOnly(run: seq<map<string, State>>, ops: seq<Op>, n: nat, id: string)
    requires IsRun(run, ops) && n < |ops| && id in run[n] && id !in run[n + 1]
    ensures
      || ops[n].Clear?
      || (ops[n].Abandon? && ops[n].id == id)
      || (!ops[n].Clear? && Expired(run[n][id], ops[n].now))
      || (ops[n].Start? && |Live(run[n], ops[n].now)| == MaxActive && LeastRecent(run[n][id], Live(run[n], ops[n].now)))
  {
    assert Happens(run[n], ops[n], run[n + 1]);
    match ops[n]
    case Start(new', rs, view, now) =>
      if !Expired(run[n][id], now) {
        var kept :| Purged(run[n], now, kept) && run[n + 1] == kept[new' := Started(rs, view, now).value];
        PurgeDrops(run[n], now, kept, id);
        RunKept(run, ops, n);
        LiveKeeps(run[n], now);
      }
    case _ =>
  }

  method SearchRound(s: State, resolved: seq<Resolution>, missing: string, toolOk: bool, found: seq<Item>,
                     leads: seq<Item>, now: int)
    returns (t: State, made: bool)
    requires |s.slots| == |s.requirements|
    ensures (t, made) == Searched(s, resolved, missing, toolOk, found, leads, now)
  {
    if s.status != Active {
      return s, false;
    }
    var (r, ok) := Resolve(s, resolved);
    if !ok || !MaySearch(r, missing) {
      return r, false;
    }
    if r.exhausted || r.rounds >= MaxRounds {
      return r.(exhausted := true), false;
    }
    if !toolOk {
      return r, false;
    }
    var c := TakeItems(Account0(r.candidates, r.tokens, r.chars), found, MaxCandidates);
    var l := TakeItems(Account0(r.leads, c.tokens, c.chars), leads, MaxLeads);
    var progress := c.added != [] || l.added != [];
    t := r.(candidates := c.items, leads := l.items, tokens := l.tokens, chars := l.chars, rounds := r.rounds + 1,
            updated := now, status := if progress then r.status else Fallback,
            exhausted := r.exhausted || c.stopped || l.stopped || (progress && r.rounds + 1 >= MaxRounds));
    made := true;
  }

  /** How a finish ends: an error when the retrieval is not there. */
  function Ending(before: map<string, State>, op: Op): Finishing
    requires op.Finish? && (op.id in before ==> |before[op.id].slots| == |before[op.id].requirements|)
  {
    if Looked(before, op.id, op.owned, op.now).1
    then FinishedState(before[op.id], op.resolved, op.selected, op.compute, op.now).1
    else Raised
  }

  lemma FinishMeans(before: map<string, State>, after: map<string, State>, op: Op, f: Finishing)
    requires Kept(before) && op.Finish? && Happens(before, op, after) && f == Ending(before, op)
    ensures f.Done? ==> op.id in after && after[op.id].status == Finished && Satisfies(after[op.id], f.refs)
    ensures op.id in after && after[op.id].status == Finished ==>
      f.Done? || (op.id in before && before[op.id].status == Finished)
  {
    if Looked(before, op.id, op.owned, op.now).1 {
      var s := before[op.id];
      assert Valid(s) && after[op.id] == FinishedState(s, op.resolved, op.selected, op.compute, op.now).0;
      FinishKeeps(s, op.resolved, op.selected, op.compute, op.now);
    }
  }

  class Registry {
    var states: map<string, State>

    constructor ()
      ensures Kept(states) && states == map[]
    {
      states := map[];
    }

    method Clear()
      modifies this
      ensures Happens(old(states), Op.Clear, states)
    {
      states := map[];
    }

    method DropExpired(now: int)
      modifies this
      ensures states == Live(old(states), now)
    {
      states := states - set id | id in states && Expired(states[id], now);
    }

    /** Expired retrievals go; when the registry is still full, so does one least recently updated, and no other. */
    method Purge(now: int)
      requires Kept(states)
      modifies this
      ensures Purged(old(states), now, states)
      ensures Kept(states) && |states| < MaxActive
    {
      DropExpired(now);
      if |states| >= MaxActive {
        DropOldest();
      }
      PurgedKeeps(old(states), now, states);
    }

    method DropOldest()
      requires states != map[]
      modifies this
      ensures exists oldest ::
        oldest in old(states) && LeastRecent(old(states)[oldest], old(states)) && states == old(states) - {oldest}
    {
      var oldest := Oldest();
      states := states - {oldest};
    }

    method Oldest() returns (oldest: string)
      requires states != map[]
      ensures oldest in states && LeastRecent(states[oldest], states)
    {
      var rest := states.Keys;
      oldest :| oldest in rest;
      rest := rest - {oldest};
      while rest != {}
        invariant rest <= states.Keys && oldest in states
        invariant forall k :: k in states && k !in rest ==> states[oldest].updated <= states[k].updated
        decreases rest
      {
        var k :| k in rest;
        if states[k].updated < states[oldest].updated {
          oldest := k;
        }
        rest := rest - {k};
      }
    }

    /** The retrieval, unless it is unknown, another session's, or expired (then it is dropped). */
    method Get(id: string, owned: bool, now: int) returns (found: bool)
      requires Kept(states)
      modifies this
      ensures (states, found) == Looked(old(states), id, owned, now)
      ensures Kept(states)
    {
      if id !in states || !owned {
        return false;
      }
      if Expired(states[id], now) {
        Fewer(states, {id});
        states := states - {id};
        return false;
      }
      return true;
    }

    method Start(id: string, requirements: seq<Requirement>, view: Option<View>, now: int) returns (started: bool)
      requires Kept(states) && id !in states
      modifies this
      ensures Happens(old(states), Op.Start(id, requirements, view, now), states)
      ensures Kept(states) && Onward(old(states), states)
      ensures started <==> RequirementsOk(requirements)
      ensures started ==> id in states && Some(states[id]) == Started(requirements, view, now)
    {
      StartKeeps(requirements, view, now);
      var s := Started(requirements, view, now);
      started := s.Some?;
      if started {
        Purge(now);
        states := states[id := s.value];
      }
      OpKeeps(old(states), Op.Start(id, requirements, view, now), states);
    }

    method Search(id: string, owned: bool, resolved: seq<Resolution>, missing: string, toolOk: bool, found: seq<Item>,
                  leads: seq<Item>, now: int)
      returns (made: bool)
      requires Kept(states)
      modifies this
      ensures Happens(old(states), Op.Search(id, owned, resolved, missing, toolOk, found, leads, now), states)
      ensures Kept(states) && Onward(old(states), states)
      ensures made <==> Looked(old(states), id, owned, now).1
                        && Searched(old(states)[id], resolved, missing, toolOk, found, leads, now).1
    {
      made := false;
      var held := Get(id, owned, now);
      if held {
        var t;
        t, made := SearchRound(states[id], resolved, missing, toolOk, found, leads, now);
        states := states[id := t];
      }
      OpKeeps(old(states), Op.Search(id, owned, resolved, missing, toolOk, found, leads, now), states);
    }

    method Finish(id: string, owned: bool, resolved: seq<Resolution>, selected: seq<string>, compute: Compute, now: int)
      returns (f: Finishing)
      requires Kept(states)
      modifies this
      ensures Happens(old(states), Op.Finish(id, owned, resolved, selected, compute, now), states)
      ensures Kept(states) && Onward(old(states), states)
      ensures f == Ending(old(states), Op.Finish(id, owned, resolved, selected, compute, now))
      ensures f.Done? ==> id in states && states[id].status == Finished && Satisfies(states[id], f.refs)
      ensures id in states && states[id].status == Finished ==>
        f.Done? || (id in old(states) && old(states)[id].status == Finished)
    {
      f := Raised;
      var held := Get(id, owned, now);
      if held {
        var (t, outcome) := FinishedState(states[id], resolved, selected, compute, now);
        states, f := states[id := t], outcome;
      }
      FinishMeans(old(states), states, Op.Finish(id, owned, resolved, selected, compute, now), f);
      OpKeeps(old(states), Op.Finish(id, owned, resolved, selected, compute, now), states);
    }

    method Touch(id: string, owned: bool, now: int) returns (held: bool)
      requires Kept(states)
      modifies this
      ensures Happens(old(states), Op.Touch(id, owned, now), states)
      ensures Kept(states) && Onward(old(states), states) && held == Looked(old(states), id, owned, now).1
    {
      held := Get(id, owned, now);
      if held {
        states := states[id := states[id].(updated := now)];
      }
      OpKeeps(old(states), Op.Touch(id, owned, now), states);
    }

    method Abandon(id: string, owned: bool, now: int) returns (held: bool)
      requires Kept(states)
      modifies this
      ensures Happens(old(states), Op.Abandon(id, owned, now), states)
      ensures Kept(states) && Onward(old(states), states) && held == Looked(old(states), id, owned, now).1
    {
      held := Get(id, owned, now);
      if held {
        states := states - {id};
      }
      OpKeeps(old(states), Op.Abandon(id, owned, now), states);
    }
  }

  // ---- exact evidence ----------------------------------------------------

  const MaxEvidence: nat := 2400

  predicate QuoteAt(content: string, quote: string, i: int) {
    0 <= i && i + |quote| <= |content| && content[i..i + |quote|] == quote
  }

  /** The first place from `i` on where the quote stands. */
  function Find(content: string, quote: string, i: nat): (at: Option<nat>)
    requires i <= |content|
    ensures at.Some? ==> i <= at.value && QuoteAt(content, quote, at.value) && forall k :: i <= k < at.value ==>
      !QuoteAt(content, quote, k)
    ensures at.None? ==> forall k :: i <= k ==> !QuoteAt(content, quote, k)
    decreases |content| - i
  {
    if QuoteAt(content, quote, i) then Some(i)
    else if i == |content| then None
    else Find(content, quote, i + 1)
  }

  /** The span an item's quote names in its message: the declared span when it has one, else its offset, else
      the one place the quote stands. */
  function EvidenceSpan(content: string, text: string, declared: bool, start: int,
                        declaredEnd: int): (span: Option<(nat, nat)>)
    ensures span.Some? ==> text != [] && 0 < span.value.1 - span.value.0 <= MaxEvidence && span.value.1 <= |content|
    ensures span.Some? ==>
      content[span.value.0..span.value.1] == (if |text| <= MaxEvidence then text else text[..MaxEvidence])
  {
    var quote := if |text| <= MaxEvidence then text else text[..MaxEvidence];
    if quote == [] then None
    else if declared && declaredEnd - start < |quote| then None
    else if QuoteAt(content, quote, start) then Some((start, start + |quote|))
    else if declared then None
    else
      var first := Find(content, quote, 0);
      if first.None? || first.value >= |content| || Find(content, quote, first.value + 1).Some? then None
      else Some((first.value, first.value + |quote|))
  }

  /** Without a declared span, evidence stands at its offset or at the only place its quote occurs. */
  lemma EvidenceUnambiguous(content: string, text: string, start: int, declaredEnd: int)
    requires EvidenceSpan(content, text, false, start, declaredEnd).Some?
    ensures var span := EvidenceSpan(content, text, false, start, declaredEnd).value;
      span.0 == start || forall k: int :: QuoteAt(content, content[span.0..span.1], k) <==> k == span.0
  {
    var quote := if |text| <= MaxEvidence then text else text[..MaxEvidence];
    if !QuoteAt(content, quote, start) {
      var first := Find(content, quote, 0).value;
      assert content[first..first + |quote|] == quote;
      forall k: int | QuoteAt(content, quote, k) ensures k == first {
      }
    }
  }
}
