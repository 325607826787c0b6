/**
  When a retrieval's calls succeed, and exactly what they change: resolutions, one search round, a finish, a start from
  a cached view, and looking a retrieval up.
 */
module RetrievalOutcomes {
  import opened Wrappers
  import opened Retrieval

  // ---- resolving slots ---------------------------------------------------

  /** The resolution names a required slot and between one and forty refs, all of them held. */
  ghost predicate Usable(s: State, item: Resolution) {
    && (exists k :: 0 <= k < |s.requirements| && s.requirements[k].slot == item.slot)
    && 1 <= |item.refs| <= 40 && forall id :: id in item.refs ==> HasId(s.candidates, id)
  }

  /** Some of the resolutions give the ref to the slot. */
  ghost predicate Gives(raw: seq<Resolution>, slot: string, id: string) {
    exists i :: 0 <= i < |raw| && raw[i].slot == slot && id in raw[i].refs
  }

  lemma {:induction false} AddsExactly(s: State, k: nat, refs: seq<string>)
    requires k < |s.slots|
    ensures var (t, ok) := AddRefs(s, k, refs);
      && |t.slots| == |s.slots| && t == s.(slots := t.slots)
      && (ok <==> forall id :: id in refs ==> HasId(s.candidates, id))
      && (forall id :: id in t.slots[k] ==> id in s.slots[k] || id in refs)
      && (forall id :: id in s.slots[k] || (ok && id in refs) ==> id in t.slots[k])
      && (forall l :: 0 <= l < |s.slots| && l != k ==> t.slots[l] == s.slots[l])
  {
    if refs != [] {
      AddsExactly(s, k, refs[..|refs| - 1]);
      assert forall id :: id in refs <==> id in refs[..|refs| - 1] || id == refs[|refs| - 1];
    }
  }

  /** What one resolution does: all of its refs go to its slot if it is usable. */
  lemma ResolvesOneInto(s: State, item: Resolution, k: nat, id: string)
    requires |s.slots| == |s.requirements| && RequirementsOk(s.requirements) && k < |s.slots|
    ensures var (t, ok) := ResolveOne(s, item);
      && t == s.(slots := t.slots) && (id in s.slots[k] ==> id in t.slots[k])
      && (id in t.slots[k] ==> id in s.slots[k] || (s.requirements[k].slot == item.slot && id in item.refs))
      && (ok && s.requirements[k].slot == item.slot && id in item.refs ==> id in t.slots[k])
  {
    var l := SlotIndex(s.requirements, item.slot);
    if l.Some? {
      AddsExactly(s, l.value, item.refs);
    }
  }

  lemma ResolvesOne(s: State, item: Resolution)
    requires |s.slots| == |s.requirements| && RequirementsOk(s.requirements)
    ensures var (t, ok) := ResolveOne(s, item); t == s.(slots := t.slots) && (ok <==> Usable(s, item))
  {
    var k := SlotIndex(s.requirements, item.slot);
    if k.Some? {
      AddsExactly(s, k.value, item.refs);
    }
  }

  ghost predicate UsableAll(s: State, raw: seq<Resolution>) {
    forall i :: 0 <= i < |raw| ==> Usable(s, raw[i])
  }

  lemma AllUsable(s: State, raw: seq<Resolution>)
    requires raw != []
    ensures UsableAll(s, raw) <==> UsableAll(s, raw[..|raw| - 1]) && Usable(s, raw[|raw| - 1])
  {
  }

  lemma {:induction false} ResolvesShape(s: State, raw: seq<Resolution>)
    requires |s.slots| == |s.requirements| && RequirementsOk(s.requirements)
    ensures var (t, ok) := ResolveAll(s, raw);
      t == s.(slots := t.slots) && |t.slots| == |s.slots| && (ok <==> UsableAll(s, raw))
  {
    if raw != [] {
      var front, last := raw[..|raw| - 1], raw[|raw| - 1];
      var (before, ok) := ResolveAll(s, front);
      ResolvesShape(s, front);
      AllUsable(s, raw);
      if ok {
        ResolvesOne(before, last);
        assert Usable(before, last) <==> Usable(s, last);
      }
    }
  }

  lemma {:induction false} ResolvesInto(s: State, raw: seq<Resolution>, k: nat, id: string)
    requires |s.slots| == |s.requirements| && RequirementsOk(s.requirements) && k < |s.slots|
    ensures var (t, ok) := ResolveAll(s, raw);
      && |t.slots| == |s.slots| && (id in s.slots[k] ==> id in t.slots[k])
      && (id in t.slots[k] ==> id in s.slots[k] || Gives(raw, s.requirements[k].slot, id))
      && (ok && Gives(raw, s.requirements[k].slot, id) ==> id in t.slots[k])
  {
    if raw != [] {
      var front, last := raw[..|raw| - 1], raw[|raw| - 1];
      var (before, ok) := ResolveAll(s, front);
      ResolvesShape(s, front);
      ResolvesInto(s, front, k, id);
      GivesLast(raw, s.requirements[k].slot, id);
      if ok {
        ResolvesOneInto(before, last, k, id);
      }
    }
  }

  /** Resolutions are usable exactly when each is, and a slot then holds what it held and what they give it. */
  lemma ResolvesExactly(s: State, raw: seq<Resolution>)
    requires |s.slots| == |s.requirements| && RequirementsOk(s.requirements)
    ensures var (t, ok) := ResolveAll(s, raw);
      && t == s.(slots := t.slots) && |t.slots| == |s.slots|
      && (ok <==> UsableAll(s, raw))
      && (forall k, id :: 0 <= k < |s.slots| && id in s.slots[k] ==> id in t.slots[k])
      && (forall k, id :: 0 <= k < |s.slots| && id in t.slots[k] ==>
            id in s.slots[k] || Gives(raw, s.requirements[k].slot, id))
      && (ok ==> forall k, id :: 0 <= k < |s.slots| && Gives(raw, s.requirements[k].slot, id) ==> id in t.slots[k])
  {
    ResolvesShape(s, raw);
    forall k: nat, id | k < |s.slots|
      ensures var (t, ok) := ResolveAll(s, raw);
        && (id in s.slots[k] ==> id in t.slots[k])
        && (id in t.slots[k] ==> id in s.slots[k] || Gives(raw, s.requirements[k].slot, id))
        && (ok && Gives(raw, s.requirements[k].slot, id) ==> id in t.slots[k])
    {
      ResolvesInto(s, raw, k, id);
    }
  }

  lemma GivesLast(raw: seq<Resolution>, slot: string, id: string)
    requires raw != []
    ensures Gives(raw, slot, id) <==>
      || Gives(raw[..|raw| - 1], slot, id)
      || (raw[|raw| - 1].slot == slot && id in raw[|raw| - 1].refs)
  {
    var front := raw[..|raw| - 1];
    if Gives(raw, slot, id) {
      var i :| 0 <= i < |raw| && raw[i].slot == slot && id in raw[i].refs;
      assert i < |front| ==> front[i] == raw[i];
    }
    if Gives(front, slot, id) {
      var i :| 0 <= i < |front| && front[i].slot == slot && id in front[i].refs;
      assert front[i] == raw[i];
    }
  }

  /** What comes before the first resolution that is not usable counts even so, and nothing after it. */
  lemma {:induction false} ResolvesUntil(s: State, raw: seq<Resolution>, n: nat)
    requires |s.slots| == |s.requirements| && RequirementsOk(s.requirements)
    requires n < |raw| && (forall i :: 0 <= i < n ==> Usable(s, raw[i])) && !Usable(s, raw[n])
    ensures !ResolveAll(s, raw).1 && |ResolveAll(s, raw).0.slots| == |s.slots|
    ensures forall k, id :: 0 <= k < |s.slots| && (id in s.slots[k] || Gives(raw[..n], s.requirements[k].slot, id)) ==>
      id in ResolveAll(s, raw).0.slots[k]
    ensures forall k, id :: 0 <= k < |s.slots| && id in ResolveAll(s, raw).0.slots[k] ==>
      id in s.slots[k] || Gives(raw[..n + 1], s.requirements[k].slot, id)
  {
    ResolvesExactly(s, raw);
    var front := raw[..|raw| - 1];
    if n == |front| {
      assert raw[..n] == front && raw[..n + 1] == raw;
      ResolvesExactly(s, front);
      var before := ResolveAll(s, front).0;
      ResolvesOne(before, raw[n]);
      forall k: nat, id | k < |s.slots| && id in before.slots[k] ensures id in ResolveAll(s, raw).0.slots[k] {
        ResolvesOneInto(before, raw[n], k, id);
      }
    } else {
      assert front[..n] == raw[..n] && front[..n + 1] == raw[..n + 1] && front[n] == raw[n];
      ResolvesUntil(s, front, n);
    }
  }

  // ---- one search round --------------------------------------------------

  /** The offered items that are not held, each once, in the order offered. */
  function NewOnes(held: seq<Item>, offered: seq<Item>): seq<Item> {
    if offered == [] then []
    else
      var before, last := NewOnes(held, offered[..|offered| - 1]), offered[|offered| - 1];
      if HasId(held, last.id) || HasId(before, last.id) then before else before + [last]
  }

  /** Of `novel` the longest prefix has been added within the budgets: the item after it, if any, does not fit. */
  ghost predicate AddsPrefix(held: seq<Item>, tokens: nat, chars: nat, limit: nat, novel: seq<Item>, b: Account) {
    && b.added <= novel && b.items == held + b.added
    && b.tokens == tokens + Tokens(b.added) && b.chars == chars + Chars(b.added)
    && (b.stopped <==> |b.added| < |novel|)
    && (b.stopped ==>
          var next := novel[|b.added|];
          |b.items| >= limit || b.tokens + next.tokens > 7500 || b.chars + next.chars > 40000)
    && (b.added != [] ==> |b.items| <= limit && b.tokens <= 7500 && b.chars <= 40000)
  }

  /** A round takes the new items in order until one does not fit. */
  lemma {:induction false} TakesPrefix(held: seq<Item>, tokens: nat, chars: nat, offered: seq<Item>, limit: nat)
    ensures AddsPrefix(held, tokens, chars, limit, NewOnes(held, offered),
                       Take(Account0(held, tokens, chars), offered, limit))
  {
    if offered != [] {
      var front, last := offered[..|offered| - 1], offered[|offered| - 1];
      TakesPrefix(held, tokens, chars, front, limit);
      var b, before := Take(Account0(held, tokens, chars), front, limit), NewOnes(held, front);
      assert !b.stopped ==> b.added == before;
      assert HasId(held + before, last.id) <==> HasId(held, last.id) || HasId(before, last.id) by {
        HasIdJoin(held, before, last.id);
      }
      assert (b.added + [last])[..|b.added|] == b.added;
    } else {
      assert held + [] == held;
    }
  }

  lemma HasIdJoin(a: seq<Item>, b: seq<Item>, id: string)
    ensures HasId(a + b, id) <==> HasId(a, id) || HasId(b, id)
  {
    if HasId(a, id) {
      var k :| 0 <= k < |a| && a[k].id == id;
      assert (a + b)[k].id == id;
    }
    if HasId(b, id) {
      var k :| 0 <= k < |b| && b[k].id == id;
      assert (a + b)[|a| + k].id == id;
    }
  }

  /** The slot is one of the requirements and has fewer refs than that asks for. */
  ghost predicate Asks(r: State, missing: string) {
    exists k :: 0 <= k < |r.requirements| && k < |r.slots| && r.requirements[k].slot == missing
                && |r.slots[k]| < r.requirements[k].minimum
  }

  /** What a round does: it takes new candidates within forty, then new leads within twenty-four, under the common
      budget; without either the retrieval falls back, and it is exhausted when something did not fit or after the third
      round. */
  ghost predicate RoundMade(r: State, t: State, found: seq<Item>, leads: seq<Item>, now: int) {
    && t.requirements == r.requirements && t.slots == r.slots && t.rounds == r.rounds + 1 && t.updated == now
    && exists c: Account, l: Account ::
         && AddsPrefix(r.candidates, r.tokens, r.chars, 40, NewOnes(r.candidates, found), c)
         && AddsPrefix(r.leads, c.tokens, c.chars, 24, NewOnes(r.leads, leads), l)
         && t.candidates == c.items && t.leads == l.items && t.tokens == l.tokens && t.chars == l.chars
         && t.status == (if c.added == [] && l.added == [] then Fallback else r.status)
         && (t.exhausted <==>
               || r.exhausted || c.stopped || l.stopped
               || (r.rounds + 1 >= 3 && (c.added != [] || l.added != [])))
  }

  /** A round is made exactly for an active retrieval with usable resolutions, a slot that is still open after them,
      budget left and a tool call that is allowed.  Otherwise only the resolutions count, and a search for an open slot
      without budget marks it exhausted. */
  lemma SearchOutcome(s: State, raw: seq<Resolution>, missing: string, toolOk: bool, found: seq<Item>,
                      leads: seq<Item>, now: int)
    requires Valid(s)
    ensures var (t, made) := Searched(s, raw, missing, toolOk, found, leads, now);
      var r := Resolve(s, raw).0;
      var asks := s.status == Active && |raw| <= 12 && UsableAll(s, raw) && Asks(r, missing);
      && (made <==> asks && !s.exhausted && s.rounds < 3 && toolOk)
      && (made ==> RoundMade(r, t, found, leads, now))
      && (!made ==>
            t == (if s.status != Active then s
                  else if asks && (s.exhausted || s.rounds >= 3) then r.(exhausted := true) else r))
  {
    if s.status == Active {
      ResolvesExactly(s, raw);
      var r := Resolve(s, raw).0;
      var k := SlotIndex(r.requirements, missing);
      assert MaySearch(r, missing) <==> Asks(r, missing);
      var c := Take(Account0(r.candidates, r.tokens, r.chars), found, MaxCandidates);
      TakesPrefix(r.candidates, r.tokens, r.chars, found, 40);
      TakesPrefix(r.leads, c.tokens, c.chars, leads, 24);
    }
  }

  // ---- finishing ---------------------------------------------------------

  ghost predicate Selects(r: State, selected: seq<string>, id: string) {
    if selected == [] then exists k :: 0 <= k < |r.slots| && id in r.slots[k] else id in selected
  }

  /** With a slot still open the retrieval falls back and the open ones are named.  Otherwise some selection without
      duplicates decides: refused or not satisfying the requirements it changes nothing, else it finishes the retrieval,
      unless the computation failed. */
  ghost predicate ConcludesAs(r: State, selected: seq<string>, compute: Compute, now: int, t: State, f: Finishing)
    requires |r.slots| == |r.requirements|
  {
    if exists k :: 0 <= k < |r.slots| && |r.slots[k]| < r.requirements[k].minimum then
      && t == r.(status := Fallback, updated := now) && f.StillOpen?
      && (forall k: nat :: k in f.open <==> k < |r.slots| && |r.slots[k]| < r.requirements[k].minimum)
    else exists refs: seq<string> ::
      && NoDuplicate(refs) && (forall id :: id in refs <==> Selects(r, selected, id))
      && (t, f) == if compute == Rejected || !Satisfies(r, refs) then (r, Raised)
                   else if compute == Failed then (r.(status := Fallback, updated := now), EvidenceOnly(refs))
                   else (r.(status := Finished, updated := now), Done(refs))
  }

  lemma Concludes(r: State, selected: seq<string>, compute: Compute, now: int)
    requires |r.slots| == |r.requirements|
    ensures var (t, f) := Concluded(r, selected, compute, now); ConcludesAs(r, selected, compute, now, t, f)
  {
    SomeIn(OpenSlots(r));
    if OpenSlots(r) == [] {
      forall k | 0 <= k < |r.slots| ensures |r.slots[k]| >= r.requirements[k].minimum {
        assert k !in OpenSlots(r);
      }
      var refs := Dedup(if selected == [] then AllRefs(r.slots) else selected);
      assert forall id :: id in refs <==> Selects(r, selected, id);
      assert Accepts(r, refs) <==> Satisfies(r, refs);
    } else {
      var k: nat :| k in OpenSlots(r);
      assert |r.slots[k]| < r.requirements[k].minimum;
    }
  }

  /** A finish fails for a retrieval that is over or resolutions that are not usable; falls back while a slot is open;
      and otherwise ends with the chosen refs, each once, or with every slot's refs if none are chosen: finished if
      they give every slot its minimum and nothing was computed or the computation succeeded, evidence alone if it
      failed, and an error if it was refused or they do not. */
  lemma FinishOutcome(s: State, raw: seq<Resolution>, selected: seq<string>, compute: Compute, now: int)
    requires Valid(s)
    ensures var (t, f) := FinishedState(s, raw, selected, compute, now);
      var r := Resolve(s, raw).0;
      if s.status == Finished || s.status == Abandoned then t == s && f == Raised
      else if |raw| > 12 || !UsableAll(s, raw) then t == r && f == Raised
      else ConcludesAs(r, selected, compute, now, t, f)
  {
    if s.status != Finished && s.status != Abandoned && |raw| <= 12 {
      ResolvesExactly(s, raw);
      var (r, ok) := Resolve(s, raw);
      if ok {
        Concludes(r, selected, compute, now);
      }
    }
  }

  // ---- starting and looking up -------------------------------------------

  /** The last of the items that has this id. */
  ghost predicate LastWith(items: seq<Item>, item: Item) {
    exists i :: 0 <= i < |items| && items[i] == item && forall j :: i < j < |items| ==> items[j].id != item.id
  }

  /** A dictionary by id holds, once for every id there is, the last item that has it. */
  lemma {:induction false} ByCitationMeans(items: seq<Item>)
    ensures NoRepeat(ByCitation(items)) && (forall id :: HasId(ByCitation(items), id) <==> HasId(items, id))
    ensures forall item :: item in ByCitation(items) <==> LastWith(items, item)
  {
    if items != [] {
      var front, last := items[..|items| - 1], items[|items| - 1];
      ByCitationMeans(front);
      PutMeans(ByCitation(front), last);
      ByCitationDistinct(items);
      assert items == front + [last];
      forall id ensures HasId(items, id) <==> HasId(front, id) || HasId([last], id) {
        HasIdJoin(front, [last], id);
      }
      assert forall id :: HasId([last], id) <==> id == last.id by {
        assert [last][0].id == last.id;
      }
      forall item ensures LastWith(items, item) <==> item == last || (item.id != last.id && LastWith(front, item)) {
        LastWithLast(items, item);
      }
    }
  }

  lemma LastWithLast(items: seq<Item>, item: Item)
    requires items != []
    ensures var front, last := items[..|items| - 1], items[|items| - 1];
      LastWith(items, item) <==> item == last || (item.id != last.id && LastWith(front, item))
  {
    var front, last := items[..|items| - 1], items[|items| - 1];
    if LastWith(items, item) && item != last {
      var i :| 0 <= i < |items| && items[i] == item && forall j :: i < j < |items| ==> items[j].id != item.id;
      assert front[i] == item && items[|items| - 1].id != item.id;
      assert forall j :: i < j < |front| ==> front[j] == items[j];
    }
    if item.id != last.id && LastWith(front, item) {
      var i :| 0 <= i < |front| && front[i] == item && forall j :: i < j < |front| ==> front[j].id != item.id;
      assert items[i] == item && forall j :: i < j < |items| ==> items[j].id != item.id;
    }
    if item == last {
      assert items[|items| - 1] == item;
    }
  }

  lemma {:induction false} PutMeans(held: seq<Item>, item: Item)
    requires NoRepeat(held)
    ensures forall x :: x in Put(held, item) <==> x == item || (x in held && x.id != item.id)
    ensures forall id :: HasId(Put(held, item), id) <==> id == item.id || HasId(held, id)
  {
    PutIds(held, item);
    if held != [] {
      var front, last := held[..|held| - 1], held[|held| - 1];
      assert held == front + [last] && NoRepeat(front);
      PutMeans(front, item);
      assert forall x :: x in held <==> x in front || x == last;
      assert forall x :: x in front ==> x.id != last.id;
    }
    forall id ensures HasId(Put(held, item), id) <==> id == item.id || HasId(held, id) {
      InHas(Put(held, item), id);
      InHas(held, id);
    }
  }

  lemma InHas(items: seq<Item>, id: string)
    ensures HasId(items, id) <==> exists x :: x in items && x.id == id
  {
    if HasId(items, id) {
      var k :| 0 <= k < |items| && items[k].id == id;
      assert items[k] in items;
    }
  }

  /** A start succeeds exactly on one to twelve different slots with minimums that sum up to forty at most.  It is ready
      at once exactly when a cached view is of these requirements, was confirmed, is within the budgets, and gives every
      slot its minimum of refs it holds; otherwise it is active and empty. */
  lemma StartOutcome(rs: seq<Requirement>, view: Option<View>, now: int)
    ensures Started(rs, view, now).Some? <==>
      && 1 <= |rs| <= 12 && SumMinimum(rs) <= 40 && (forall k :: 0 <= k < |rs| ==> 1 <= rs[k].minimum <= 40)
      && (forall k, l :: 0 <= k < l < |rs| ==> rs[k].slot != rs[l].slot)
    ensures Started(rs, view, now).Some? ==>
      var s := Started(rs, view, now).value;
      && s.requirements == rs && |s.slots| == |rs| && s.leads == [] && s.rounds == 0 && !s.exhausted && s.updated == now
      && (s.status == Ready <==>
            && view.Some? && view.value.digestMatches && view.value.confirmed
            && var held := ByCitation(view.value.dependencies);
               && |held| <= 40 && Tokens(held) <= 7500 && Chars(held) <= 40000
               && forall k :: 0 <= k < |rs| ==>
                    && rs[k].minimum <= |SlotRefs(view.value, rs[k].slot)|
                    && forall id :: id in SlotRefs(view.value, rs[k].slot) ==> HasId(view.value.dependencies, id))
      && (if s.status == Ready then
            && s.candidates == ByCitation(view.value.dependencies)
            && (forall k :: 0 <= k < |rs| ==> s.slots[k] == SlotRefs(view.value, rs[k].slot))
            && s.tokens == Tokens(s.candidates) && s.chars == Chars(s.candidates)
          else
            && s.status == Active && s.candidates == [] && s.tokens == 0 && s.chars == 0
            && forall k :: 0 <= k < |rs| ==> s.slots[k] == [])
  {
    if view.Some? {
      ByCitationMeans(view.value.dependencies);
    }
  }

  /** A retrieval is found exactly by its own session within fifteen minutes of its last update; looked up later it is
      dropped. */
  lemma LookedOutcome(states: map<string, State>, id: string, owned: bool, now: int)
    ensures var (held, found) := Looked(states, id, owned, now);
      && (found <==> id in states && owned && now < states[id].updated + 900)
      && held == if id in states && owned && now >= states[id].updated + 900 then states - {id} else states
  {
  }
}
