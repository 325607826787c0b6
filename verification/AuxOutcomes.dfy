/**
  What each call does to an auxiliary session, said of the engine's sets and maps alone: who may end a session, which
  generation is live after a registration or a handoff, and when a late handoff leaves the newer one alone.
 */
module AuxOutcomes {
  import opened Wrappers
  import opened AuxGenerations

  /** The generation has been retired for the session. */
  predicate Spent(a: Aux, s: Session, g: Token) {
    g != 0 && s in a.retired && g in a.retired[s]
  }

  /** Nothing about the session differs. */
  ghost predicate SameFor(a: Aux, b: Aux, s: Session) {
    && (s in a.active <==> s in b.active) && (s in a.lineage <==> s in b.lineage) && (s in a.reused <==> s in b.reused)
    && (s in a.usage <==> s in b.usage) && (s in a.guarded <==> s in b.guarded)
    && Lookup(a.parents, s) == Lookup(b.parents, s) && Lookup(a.generations, s) == Lookup(b.generations, s)
    && (forall g: Token :: Spent(a, s, g) <==> Spent(b, s, g))
  }

  ghost predicate OthersSame(a: Aux, b: Aux, s: Session) {
    a.issued <= b.issued && forall r: Session :: r != s ==> SameFor(a, b, r)
  }

  /** The session retires this generation, if any, and no other. */
  ghost predicate RetiresOnly(a: Aux, b: Aux, s: Session, g: Option<Token>) {
    forall h: Token :: Spent(b, s, h) <==> Spent(a, s, h) || (h != 0 && g == Some(h))
  }

  /** The session has ended: inactive, without a generation, usage, guard or recorded parent. */
  predicate Ended(b: Aux, s: Session) {
    s !in b.active && s !in b.generations && s !in b.usage && s !in b.guarded && s !in b.parents
  }

  // ---- deactivate --------------------------------------------------------

  /** The live generation's token always ends its session, another one never does, and no token does exactly when the
      session is unguarded or has cached usage.  Without a live generation any token that is not retired will do, but a
      guarded session asks for a token or cached usage, and for the parent it was handed over by. */
  lemma DeactivateOutcome(a: Aux, s: Session, g: Token, callerParent: Session)
    requires Inv(a) && s != ""
    ensures var (b, ended) := Deactivate(a, s, g, callerParent);
      && (s in a.generations ==>
            (ended <==> g == a.generations[s] || (g == 0 && (s !in a.guarded || s in a.usage))))
      && (s !in a.generations ==>
            (ended <==>
              && !Spent(a, s, g)
              && (s in a.guarded ==>
                    && (g != 0 || s in a.usage)
                    && (s in a.parents && a.parents[s] != "" && callerParent != "" ==> callerParent == a.parents[s]))))
    ensures var (b, ended) := Deactivate(a, s, g, callerParent);
      if !ended then b == a
      else
        && Ended(b, s) && b.lineage == a.lineage && b.reused == a.reused && OthersSame(a, b, s)
        && RetiresOnly(a, b, s, Some(if s in a.generations then a.generations[s] else g))
  {
    if s in a.generations {
      assert Live(a, s, a.generations[s]);
    }
  }

  lemma UnmarkOutcome(a: Aux, s: Session, suppress: bool)
    requires Inv(a) && s != ""
    ensures var b := Unmark(a, s, suppress);
      && Ended(b, s) && b.lineage == a.lineage && OthersSame(a, b, s)
      && RetiresOnly(a, b, s, Lookup(a.generations, s))
      && b.reused == if suppress && s in a.lineage then a.reused + {s} else a.reused
  {
  }

  // ---- register ----------------------------------------------------------

  /** The token is live; if it is new to the session, the one it replaces is retired, cached usage is dropped, and a
      session that was active or had usage is guarded. */
  ghost predicate RegisteredWith(a: Aux, b: Aux, s: Session, g: Token) {
    && Lookup(b.generations, s) == Some(g) && g <= b.issued && s !in b.parents
    && if Lookup(a.generations, s) == Some(g) then
         RetiresOnly(a, b, s, None) && (s in b.usage <==> s in a.usage) && (s in b.guarded <==> s in a.guarded)
       else
         && RetiresOnly(a, b, s, Lookup(a.generations, s)) && s !in b.usage
         && (s in b.guarded <==> s in a.guarded || s in a.active || s in a.usage)
  }

  /** A live generation stays, with all that goes with it; a session that has none ends up bare. */
  ghost predicate RegisteredBare(a: Aux, b: Aux, s: Session) {
    && Lookup(b.generations, s) == Lookup(a.generations, s) && RetiresOnly(a, b, s, None)
    && (s in b.usage <==> s in a.usage && s in a.generations)
    && (s in b.guarded <==> s in a.guarded && s in a.generations)
    && Lookup(b.parents, s) == if s in a.generations then Lookup(a.parents, s) else None
  }

  lemma TokenOutcome(a: Aux, c: Aux, s: Session, g: Token)
    requires Inv(a) && s != "" && g != 0 && c == a.(issued := c.issued) && a.issued <= c.issued && g <= c.issued
    ensures var b := RegisterToken(c, s, g);
      && RegisteredWith(a, b, s, g) && OthersSame(a, b, s) && s in b.active && s in b.lineage && b.reused == a.reused
      && b.issued == c.issued
  {
    if s in a.generations {
      assert Live(a, s, a.generations[s]);
    }
  }

  lemma BareOutcome(a: Aux, s: Session)
    requires Inv(a) && s != ""
    ensures var b := RegisterBare(a, s);
      && RegisteredBare(a, b, s) && OthersSame(a, b, s) && s in b.active && s in b.lineage && b.reused == a.reused
  {
    if s in a.generations {
      assert Live(a, s, a.generations[s]);
    }
  }

  lemma MarkerOutcome(a: Aux, b: Aux, s: Session, g: Token, keepMarker: bool)
    requires OthersSame(a, b, s)
    ensures var c := if keepMarker then b else b.(reused := b.reused - {s});
      && OthersSame(a, c, s) && (RegisteredBare(a, b, s) ==> RegisteredBare(a, c, s))
      && (RegisteredWith(a, b, s, g) ==> RegisteredWith(a, c, s, g))
  {
    var c := if keepMarker then b else b.(reused := b.reused - {s});
    forall r: Session | r != s ensures SameFor(a, c, r) {
      assert SameFor(a, b, r);
    }
  }

  /** A registration is refused exactly when its token is retired and the session is active.  Otherwise the session is
      active, under the caller's token, or a new one in place of a retired one, or as it was without a token. */
  lemma RegisterOutcome(a: Aux, s: Session, caller: Token, keepMarker: bool)
    requires Inv(a) && s != "" && caller <= a.issued + 1
    ensures var (b, registered) := Register(a, s, caller, keepMarker);
      && (registered <==> !(Spent(a, s, caller) && s in a.active)) && OthersSame(a, b, s)
      && (!registered ==> b == a)
    ensures var (b, registered) := Register(a, s, caller, keepMarker);
      registered ==>
        && s in b.active && s in b.lineage && (s in b.reused <==> keepMarker && s in a.reused)
        && (caller == 0 ==> RegisteredBare(a, b, s))
        && (caller != 0 ==> RegisteredWith(a, b, s, if Spent(a, s, caller) then a.issued + 1 else caller))
  {
    if s in a.generations {
      assert Live(a, s, a.generations[s]);
    }
    var g := if Spent(a, s, caller) then a.issued + 1 else caller;
    if !(Spent(a, s, caller) && s in a.active) {
      if caller == 0 {
        BareOutcome(a, s);
        MarkerOutcome(a, RegisterBare(a, s), s, g, keepMarker);
      } else {
        var c := Issue(Issue(a, caller), g);
        TokenOutcome(a, c, s, g);
        MarkerOutcome(a, RegisterToken(c, s, g), s, g, keepMarker);
      }
    }
  }

  // ---- the locked part of a handoff --------------------------------------

  /** The old session ends, with its generation retired, unless it is preserved; it is known as auxiliary. */
  lemma LeaveOutcome(a: Aux, past: Session, preserve: bool)
    requires past != ""
    ensures var b := LeaveOld(a, past, preserve);
      && past in b.lineage && OthersSame(a, b, past) && b.reused == a.reused
      && (!preserve ==> Ended(b, past) && RetiresOnly(a, b, past, Lookup(a.generations, past)))
      && (preserve ==> b == a.(lineage := a.lineage + {past}))
  {
  }

  /** A handoff without a token leaves a live generation alone when it comes late: its session had ended, and it either
      has a retired generation and is not the recorded parent, or some other session is that parent while the new one
      is guarded and has cached usage. */
  predicate ComesLate(a: Aux, past: Session, next: Session, oldWasActive: bool) {
    && next in a.generations && past != "" && !oldWasActive
    && (|| (past in a.retired && a.retired[past] != {} && (next in a.parents ==> a.parents[next] != past))
        || (next in a.guarded && next in a.usage && next in a.parents && a.parents[next] != ""
             && a.parents[next] != past))
  }

  /** A session under its live generation is taken over by a handoff without a token: it is guarded, and no usage is
      cached, or no parent is recorded, or the parent is the old session. */
  predicate TakesOver(a: Aux, past: Session, next: Session) {
    && next in a.guarded
    && (next !in a.usage || next !in a.parents || a.parents[next] == "" || a.parents[next] == past)
  }

  /** With a token, that one is live and the one before it retired.  Without one, the live generation stays unless the
      session is taken over or the foreground has reused it. */
  ghost predicate EnteredLive(a: Aux, b: Aux, past: Session, next: Session, g: Token) {
    var previous := Lookup(a.generations, next);
    if g != 0 then
      && Lookup(b.generations, next) == Some(g)
      && RetiresOnly(a, b, next, if previous == Some(g) then None else previous)
    else if previous.Some? && next !in a.reused && !TakesOver(a, past, next) then
      Lookup(b.generations, next) == previous && RetiresOnly(a, b, next, None)
    else next !in b.generations && RetiresOnly(a, b, next, previous)
  }

  /** The foreground's marker stays on a session it reused, unless the live generation itself comes.  Otherwise usage is
      dropped, and the session is guarded if it was, if its generation is replaced, or if one without a generation had
      something left behind. */
  ghost predicate EnteredGuard(a: Aux, b: Aux, past: Session, next: Session, g: Token, marker: bool) {
    var previous := Lookup(a.generations, next);
    var left := next in a.active || next in a.usage;
    if next in a.reused && (g == 0 || previous != Some(g)) then
      && next in b.reused && next !in b.usage && next !in b.guarded
      && Lookup(b.parents, next) ==
           (if g != 0 then None else if past != "" then Some(past) else Lookup(a.parents, next))
    else
      && next !in b.reused && next !in b.usage
      && (next in b.guarded <==>
            || next in a.guarded
            || (previous.Some? && g != 0 && previous != Some(g))
            || (previous.None? && g != 0 && left)
            || (previous.None? && g == 0 && next in a.lineage && (marker || (past != "" && left))))
      && Lookup(b.parents, next) ==
           (if g != 0 then None else if next in b.guarded && past != "" then Some(past) else Lookup(a.parents, next))
  }

  lemma ReusedOutcome(a: Aux, past: Session, next: Session, g: Token, marker: bool)
    requires Inv(a) && next != "" && next in a.reused && (g == 0 || Lookup(a.generations, next) != Some(g))
    ensures var b := TakeOverReused(a, past, next, g);
      && b.issued == a.issued && next in b.lineage && next in b.active && OthersSame(a, b, next)
      && EnteredLive(a, b, past, next, g) && EnteredGuard(a, b, past, next, g, marker)
  {
  }

  lemma PlainOutcome(a: Aux, past: Session, next: Session, g: Token, marker: bool)
    requires Inv(a) && next != "" && (past != "" ==> past in a.lineage)
    requires next !in a.reused || (g != 0 && Lookup(a.generations, next) == Some(g))
    ensures var b := TakeOver(a, past, next, g, marker);
      && b.issued == a.issued && next in b.lineage && next in b.active && OthersSame(a, b, next)
      && EnteredLive(a, b, past, next, g) && EnteredGuard(a, b, past, next, g, marker)
  {
    if next in a.generations {
      assert Live(a, next, a.generations[next]);
    }
    assert Replaces(a, past, next, g) <==>
      && next in a.generations
      && (if g != 0 then a.generations[next] != g else TakesOver(a, past, next));
  }

  /** What the new session is once the old one has been left. */
  lemma EnterOutcome(a: Aux, past: Session, next: Session, g: Token, oldWasActive: bool, marker: bool)
    requires Inv(a) && next != "" && (past != "" ==> past in a.lineage)
    ensures var b := EnterNew(a, past, next, g, oldWasActive, marker);
      b.issued == a.issued && next in b.lineage && OthersSame(a, b, next)
    ensures var b := EnterNew(a, past, next, g, oldWasActive, marker);
      if g == 0 && ComesLate(a, past, next, oldWasActive) then b == a.(lineage := a.lineage + {next})
      else next in b.active && EnteredLive(a, b, past, next, g) && EnteredGuard(a, b, past, next, g, marker)
  {
    assert g == 0 && ComesLate(a, past, next, oldWasActive) <==>
      StaleHandoff(a, past, next, g, oldWasActive) || LateOther(a, past, next, g, oldWasActive);
    if next in a.reused && !(g != 0 && Lookup(a.generations, next) == Some(g)) {
      ReusedOutcome(a, past, next, g, marker);
    } else {
      PlainOutcome(a, past, next, g, marker);
    }
  }

  /** Nothing about the session differs but that it is known as auxiliary. */
  ghost predicate KnownOnly(a: Aux, b: Aux, s: Session) {
    SameFor(a.(lineage := a.lineage + {s}), b, s)
  }

  lemma EntryJoins(a: Aux, c: Aux, b: Aux, h: Entry)
    requires h.next != "" && h.past != h.next && OthersSame(a, c, h.past) && OthersSame(c, b, h.next)
    requires h.past !in a.active ==> c.retired == a.retired
    ensures forall r: Session :: r != h.next && r != h.past ==> SameFor(a, b, r)
    ensures ComesLate(a, h.past, h.next, h.past in a.active) <==> ComesLate(c, h.past, h.next, h.past in a.active)
    ensures SameFor(c, b, h.past) && SameFor(a, c, h.next)
    ensures EnteredLive(c, b, h.past, h.next, h.token) ==> EnteredLive(a, b, h.past, h.next, h.token)
    ensures EnteredGuard(c, b, h.past, h.next, h.token, h.marker) ==>
      EnteredGuard(a, b, h.past, h.next, h.token, h.marker)
    ensures b == c.(lineage := c.lineage + {h.next}) ==> KnownOnly(a, b, h.next)
  {
    assert SameFor(c, b, h.past) && SameFor(a, c, h.next);
    assert b.retired == c.retired ==> forall g: Token :: Spent(a, h.next, g) <==> Spent(b, h.next, g);
    forall r: Session | r != h.next && r != h.past ensures SameFor(a, b, r) {
      assert SameFor(a, c, r) && SameFor(c, b, r);
    }
  }

  /** The locked part as a whole, between two sessions.  With a token that was retired at the look the new session only
      becomes known.  Otherwise the old session ends, unless it is preserved, and the new one is entered. */
  lemma EntryOutcome(a: Aux, h: Entry)
    requires Inv(a) && h.token <= a.issued && h.next != "" && h.past != h.next
    ensures var b := EnterHandoff(a, h);
      forall r: Session :: r != h.next && r != h.past ==> SameFor(a, b, r)
    ensures var b := EnterHandoff(a, h);
      h.past != "" ==>
        if h.stale then SameFor(a, b, h.past)
        else if h.preserve then KnownOnly(a, b, h.past)
        else Ended(b, h.past) && h.past in b.lineage && RetiresOnly(a, b, h.past, Lookup(a.generations, h.past))
    ensures var b := EnterHandoff(a, h);
      if h.stale || (h.token == 0 && ComesLate(a, h.past, h.next, h.past in a.active)) then KnownOnly(a, b, h.next)
      else
        && h.next in b.active && h.next in b.lineage && EnteredLive(a, b, h.past, h.next, h.token)
        && EnteredGuard(a, b, h.past, h.next, h.token, h.marker)
  {
    if !h.stale {
      var c := LeaveOld(a, h.past, h.preserve);
      LeaveKeeps(a, h.past, h.preserve);
      if h.past != "" {
        LeaveOutcome(a, h.past, h.preserve);
      }
      assert h.past in a.generations ==> Live(a, h.past, a.generations[h.past]);
      EnterOutcome(c, h.past, h.next, h.token, h.past in a.active, h.marker);
      EntryJoins(a, c, EnterHandoff(a, h), h);
    }
  }
}
