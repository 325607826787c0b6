/**
  Auxiliary session generations: which token is live for a session, which are retired, and how register,
  deactivate, handoff and unmark move between them.  The caller's token comes from its stack frame: 0 for
  none, a token issued earlier, or a fresh one.
 */
module AuxGenerations {
  import opened Wrappers

  type Session = string
  type Token = nat

  datatype Aux = Aux(active: set<Session>, lineage: set<Session>, reused: set<Session>, usage: set<Session>,
                     guarded: set<Session>, parents: map<Session, Session>, generations: map<Session, Token>,
                     retired: map<Session, set<Token>>, issued: Token)

  function Lookup<K, V>(m: map<K, V>, k: K): Option<V> {
    if k in m then Some(m[k]) else None
  }

  predicate Retired(retired: map<Session, set<Token>>, s: Session, g: Token) {
    g != 0 && s in retired && g in retired[s]
  }

  function Retire(a: Aux, s: Session, g: Option<Token>): Aux {
    if s == "" || g.None? || g.value == 0 then a
    else a.(retired := a.retired[s := (if s in a.retired then a.retired[s] else {}) + {g.value}])
  }

  /** The caller's token: one already issued, or the next one, issued now. */
  function Issue(a: Aux, g: Token): Aux
    requires g <= a.issued + 1
  {
    a.(issued := if g > a.issued then g else a.issued)
  }

  /** Everything a session's end forgets besides its generation. */
  function Forget(a: Aux, s: Session): Aux {
    a.(active := a.active - {s}, usage := a.usage - {s}, generations := a.generations - {s},
      guarded := a.guarded - {s}, parents := a.parents - {s})
  }

  // ---- register ----------------------------------------------------------

  predicate RegisterRefused(a: Aux, s: Session, g: Token) {
    Retired(a.retired, s, g) && (if s in a.generations then a.generations[s] != g else s in a.active)
  }

  /** With a token: it becomes the session's generation, and the one it replaces is retired. */
  function RegisterToken(a: Aux, s: Session, g: Token): Aux {
    var previous := Lookup(a.generations, s);
    var changed := previous != Some(g);
    var guards := changed && (s in a.active || s in a.usage || previous.Some?);
    (if changed then Retire(a, s, previous) else a).(
      active := a.active + {s}, lineage := a.lineage + {s},
      guarded := if guards then a.guarded + {s} else a.guarded,
      usage := if changed then a.usage - {s} else a.usage,
      generations := a.generations[s := g], parents := a.parents - {s})
  }

  /** Without one: a live generation of an active session stays; otherwise the session has none. */
  function RegisterBare(a: Aux, s: Session): Aux {
    var previous := Lookup(a.generations, s);
    if previous.Some? && s in a.active then a.(active := a.active + {s}, lineage := a.lineage + {s})
    else Forget(Retire(a, s, previous), s).(active := a.active + {s}, lineage := a.lineage + {s})
  }

  function Register(a: Aux, s: Session, caller: Token, keepMarker: bool): (r: (Aux, bool))
    requires caller <= a.issued + 1
  {
    var b := Issue(a, caller);
    if RegisterRefused(b, s, caller) then (b, false)
    else
      var g := if Retired(b.retired, s, caller) then b.issued + 1 else caller;
      var c := Issue(b, g);
      var d := if g != 0 then RegisterToken(c, s, g) else RegisterBare(c, s);
      (if keepMarker then d else d.(reused := d.reused - {s}), true)
  }

  // ---- deactivate --------------------------------------------------------

  predicate DeactivateRefused(a: Aux, s: Session, g: Token, callerParent: Session) {
    || s == "" || Retired(a.retired, s, g)
    || if s !in a.generations then
         && s in a.guarded
         && (|| (g == 0 && s !in a.usage)
             || (s in a.parents && a.parents[s] != "" && callerParent != "" && callerParent != a.parents[s]))
       else g != a.generations[s] && (g != 0 || (s in a.guarded && s !in a.usage))
  }

  function Deactivate(a: Aux, s: Session, g: Token, callerParent: Session): (r: (Aux, bool)) {
    if DeactivateRefused(a, s, g, callerParent) then (a, false)
    else
      var active := if s in a.generations && a.generations[s] != 0 then a.generations[s] else g;
      (Forget(Retire(a, s, Some(active)), s), true)
  }

  // ---- unmark ------------------------------------------------------------

  function Unmark(a: Aux, s: Session, suppress: bool): Aux {
    var b := Forget(Retire(a, s, Lookup(a.generations, s)), s);
    if suppress && s in a.lineage then b.(reused := a.reused + {s}) else b
  }

  // ---- handoff -----------------------------------------------------------

  function LeaveOld(a: Aux, past: Session, preserve: bool): Aux {
    if past == "" then a
    else if preserve then a.(lineage := a.lineage + {past})
    else Forget(Retire(a, past, Lookup(a.generations, past)), past).(lineage := a.lineage + {past})
  }

  /** A late handoff without a token, from a session that already ended, leaves the newer generation alone. */
  predicate StaleHandoff(b: Aux, past: Session, next: Session, g: Token, oldWasActive: bool) {
    && next in b.generations && g == 0 && past != "" && !oldWasActive
    && past in b.retired && b.retired[past] != {} && Lookup(b.parents, next) != Some(past)
  }

  predicate Replaces(b: Aux, past: Session, next: Session, g: Token) {
    && next in b.generations
    && (|| (g != 0 && b.generations[next] != g)
        || (&& g == 0 && next in b.guarded
            && (next !in b.usage || next !in b.parents || b.parents[next] == "" || past == b.parents[next])))
  }

  /** A late handoff without a token, from a session other than the recorded parent, while usage is cached.  The
      source retires a replaced generation before this test; `Replaces` and `LateOther` exclude each other by
      what they ask of `usage` and `parents`, so the order does not matter. */
  predicate LateOther(b: Aux, past: Session, next: Session, g: Token, oldWasActive: bool) {
    && next in b.generations && g == 0 && next in b.guarded && next in b.usage
    && next in b.parents && b.parents[next] != "" && past != "" && !oldWasActive && past != b.parents[next]
  }

  predicate HadRuntime(b: Aux, s: Session) {
    s in b.active || s in b.usage || s in b.generations || s in b.guarded
  }

  /** Whether the session that takes over must be guarded against a direct end. */
  predicate Guards(b: Aux, past: Session, next: Session, g: Token, marker: bool) {
    && (HadRuntime(b, next) || next in b.lineage)
    && (|| Replaces(b, past, next, g) || next in b.guarded
        || (g != 0 && next !in b.generations && HadRuntime(b, next))
        || (&& next !in b.generations && g == 0 && next in b.lineage
            && (marker || (past != "" && HadRuntime(b, next) && (past in b.lineage || past in b.active)))))
  }

  /** The plain takeover: the new session is active with the caller's token, or keeps its own without one. */
  function TakeOver(b: Aux, past: Session, next: Session, g: Token, marker: bool): Aux {
    Entered(b, past, next, g, Replaces(b, past, next, g), Guards(b, past, next, g, marker))
  }

  function Entered(b: Aux, past: Session, next: Session, g: Token, replaced: bool, guards: bool): Aux {
    var c := if replaced then Retire(b, next, Lookup(b.generations, next)) else b;
    c.(active := b.active + {next}, reused := b.reused - {next}, usage := b.usage - {next},
       guarded := if guards then b.guarded + {next} else b.guarded - {next},
       parents := if g != 0 then b.parents - {next} else if guards && past != "" then b.parents[next := past]
         else b.parents,
       generations := if g != 0 then b.generations[next := g]
                      else if next !in b.generations || replaced then b.generations - {next} else b.generations,
       lineage := b.lineage + {next})
  }

  /** The new id was reused by the foreground: its marker stays, and its generation is the caller's or none. */
  function TakeOverReused(b: Aux, past: Session, next: Session, g: Token): Aux {
    var previous, changed := Lookup(b.generations, next), g == 0 || Lookup(b.generations, next) != Some(g);
    var c := if changed then Retire(b, next, previous) else b;
    c.(active := b.active + {next}, lineage := b.lineage + {next},
       usage := if changed then b.usage - {next} else b.usage,
       guarded := if changed then b.guarded - {next} else b.guarded,
       parents := if g != 0 then b.parents - {next} else if past != "" then b.parents[next := past] else b.parents,
       generations := if g != 0 then b.generations[next := g] else b.generations - {next})
  }

  function EnterNew(b: Aux, past: Session, next: Session, g: Token, oldWasActive: bool, marker: bool): Aux {
    if next == "" then b
    else if StaleHandoff(b, past, next, g, oldWasActive) then b.(lineage := b.lineage + {next})
    else if LateOther(b, past, next, g, oldWasActive) then b.(lineage := b.lineage + {next})
    else if next in b.reused && !(g != 0 && Lookup(b.generations, next) == Some(g))
      then TakeOverReused(b, past, next, g)
    else TakeOver(b, past, next, g, marker)
  }

  /** A handoff between its two parts: what it will do, and whether its token was retired when it looked. */
  datatype Entry = Entry(past: Session, next: Session, token: Token, preserve: bool, marker: bool, stale: bool)

  /** The first part reads the retired set without the lock. */
  function CheckHandoff(a: Aux, past: Session, next: Session, caller: Token, preserve: bool, marker: bool): (Aux, Entry)
    requires caller <= a.issued + 1
  {
    var b := Issue(a, caller);
    (b, Entry(past, next, caller, preserve, marker, Retired(b.retired, next, caller)))
  }

  /** The second part takes the lock and does not look again. */
  function EnterHandoff(a: Aux, h: Entry): Aux {
    if h.stale then (if h.next == "" then a else a.(lineage := a.lineage + {h.next}))
    else EnterNew(LeaveOld(a, h.past, h.preserve), h.past, h.next, h.token, h.past in a.active, h.marker)
  }

  /** Both parts with nothing in between. */
  function Handoff(a: Aux, past: Session, next: Session, caller: Token, preserve: bool, marker: bool): Aux
    requires caller <= a.issued + 1
  {
    var (b, h) := CheckHandoff(a, past, next, caller, preserve, marker);
    EnterHandoff(b, h)
  }

  // ---- what every operation keeps ----------------------------------------

  /** The live generation of a session is not retired, and the session is active and in the lineage set. */
  ghost predicate Inv(a: Aux) {
    && (forall s :: s in a.generations ==> Live(a, s, a.generations[s]))
    && a.active <= a.lineage
    && (forall s: Session, g: Token :: Retired(a.retired, s, g) ==> g <= a.issued)
  }

  ghost predicate Live(a: Aux, s: Session, g: Token) {
    g != 0 && g <= a.issued && !Retired(a.retired, s, g) && s in a.active
  }

  /** Retirement is for good, and a generation that stops being live is retired. */
  ghost predicate Moves(a: Aux, b: Aux) {
    && a.issued <= b.issued
    && (forall s: Session, g: Token :: Retired(a.retired, s, g) ==> Retired(b.retired, s, g))
    && (forall s :: s in a.generations && s != "" && Lookup(b.generations, s) != Some(a.generations[s]) ==>
      Retired(b.retired, s, a.generations[s]))
  }

  lemma RetireEffect(a: Aux, s: Session, g: Option<Token>)
    ensures forall r: Session, h: Token :: Retired(Retire(a, s, g).retired, r, h) <==>
      Retired(a.retired, r, h) || (r == s && s != "" && h != 0 && g == Some(h))
  {
  }

  lemma ForgetKeeps(a: Aux, s: Session, g: Option<Token>)
    requires Inv(a) && (g.Some? ==> g.value <= a.issued)
    requires s in a.generations ==> g == Some(a.generations[s])
    ensures Inv(Forget(Retire(a, s, g), s)) && Moves(a, Forget(Retire(a, s, g), s))
  {
    RetireEffect(a, s, g);
  }

  lemma IssueKeeps(a: Aux, g: Token)
    requires Inv(a) && g <= a.issued + 1
    ensures Inv(Issue(a, g)) && Moves(a, Issue(a, g)) && g <= Issue(a, g).issued
    ensures forall s: Session, h: Token :: Retired(Issue(a, g).retired, s, h) <==> Retired(a.retired, s, h)
  {
  }

  /** The session ends up with this token, or with none, in place of what it had. */
  lemma SwapKeeps(a: Aux, s: Session, g: Token, b: Aux)
    requires Inv(a) && g <= a.issued && !Retired(a.retired, s, g)
    requires b.issued == a.issued && b.active == a.active + {s} && b.lineage == a.lineage + {s}
    requires b.generations == if g != 0 then a.generations[s := g] else a.generations - {s}
    requires b.retired == if Lookup(a.generations, s) == Some(g) then a.retired
      else Retire(a, s, Lookup(a.generations, s)).retired
    ensures Inv(b) && Moves(a, b)
  {
    RetireEffect(a, s, Lookup(a.generations, s));
    assert forall r: Session, h: Token :: Retired(b.retired, r, h) <==>
      (if Lookup(a.generations, s) == Some(g) then Retired(a.retired, r, h)
        else Retired(Retire(a, s, Lookup(a.generations, s)).retired, r, h));
  }

  lemma RegisterKeeps(a: Aux, s: Session, caller: Token, keepMarker: bool)
    requires Inv(a) && caller <= a.issued + 1
    ensures Inv(Register(a, s, caller, keepMarker).0) && Moves(a, Register(a, s, caller, keepMarker).0)
  {
    var b := Issue(a, caller);
    IssueKeeps(a, caller);
    if !RegisterRefused(b, s, caller) {
      var g := if Retired(b.retired, s, caller) then b.issued + 1 else caller;
      var c := Issue(b, g);
      IssueKeeps(b, g);
      if g != 0 {
        SwapKeeps(c, s, g, RegisterToken(c, s, g));
      } else if !(s in c.generations && s in c.active) {
        SwapKeeps(c, s, 0, RegisterBare(c, s));
      }
    }
  }

  lemma DeactivateKeeps(a: Aux, s: Session, g: Token, callerParent: Session)
    requires Inv(a) && g <= a.issued
    ensures Inv(Deactivate(a, s, g, callerParent).0) && Moves(a, Deactivate(a, s, g, callerParent).0)
  {
    if !DeactivateRefused(a, s, g, callerParent) {
      ForgetKeeps(a, s, Some(if s in a.generations && a.generations[s] != 0 then a.generations[s] else g));
    }
  }

  lemma UnmarkKeeps(a: Aux, s: Session, suppress: bool)
    requires Inv(a)
    ensures Inv(Unmark(a, s, suppress)) && Moves(a, Unmark(a, s, suppress))
  {
    ForgetKeeps(a, s, Lookup(a.generations, s));
  }

  lemma LeaveKeeps(a: Aux, past: Session, preserve: bool)
    requires Inv(a)
    ensures Inv(LeaveOld(a, past, preserve)) && Moves(a, LeaveOld(a, past, preserve))
    ensures LeaveOld(a, past, preserve).issued == a.issued
    ensures forall s: Session, g: Token :: s != past && !Retired(a.retired, s, g) ==>
      !Retired(LeaveOld(a, past, preserve).retired, s, g)
  {
    if past != "" && !preserve {
      ForgetKeeps(a, past, Lookup(a.generations, past));
      RetireEffect(a, past, Lookup(a.generations, past));
    }
  }

  lemma EnterKeeps(b: Aux, past: Session, next: Session, g: Token, oldWasActive: bool, marker: bool)
    requires Inv(b) && g <= b.issued && !Retired(b.retired, next, g)
    ensures Inv(EnterNew(b, past, next, g, oldWasActive, marker))
      && Moves(b, EnterNew(b, past, next, g, oldWasActive, marker))
  {
    var c := EnterNew(b, past, next, g, oldWasActive, marker);
    if next == "" || StaleHandoff(b, past, next, g, oldWasActive) || LateOther(b, past, next, g, oldWasActive) {
    } else if next in b.reused && !(g != 0 && Lookup(b.generations, next) == Some(g)) {
      SwapKeeps(b, next, g, c);
    } else if g == 0 && next in b.generations && !Replaces(b, past, next, g) {
      assert c.generations == b.generations && c.retired == b.retired;
    } else {
      SwapKeeps(b, next, g, c);
    }
  }

  /** A handoff to the session itself, by the holder of its live generation, without keeping it. */
  predicate SelfHandoff(a: Aux, past: Session, next: Session, caller: Token, preserve: bool) {
    past == next && next != "" && !preserve && caller != 0 && Lookup(a.generations, next) == Some(caller)
  }

  /** At its entry the handoff has no token, or one that is not retired and that it does not retire itself. */
  predicate SafeEntry(a: Aux, h: Entry) {
    || h.stale || h.next == "" || h.token == 0
    || (!Retired(a.retired, h.next, h.token) && !SelfHandoff(a, h.past, h.next, h.token, h.preserve))
  }

  lemma EntryKeeps(a: Aux, h: Entry)
    requires Inv(a) && h.token <= a.issued && SafeEntry(a, h)
    ensures Inv(EnterHandoff(a, h)) && Moves(a, EnterHandoff(a, h))
  {
    if !h.stale {
      var c := LeaveOld(a, h.past, h.preserve);
      LeaveKeeps(a, h.past, h.preserve);
      if h.next != "" {
        RetireEffect(a, h.past, Lookup(a.generations, h.past));
        EnterKeeps(c, h.past, h.next, h.token, h.past in a.active, h.marker);
      }
    }
  }

  /** Entering with a token makes it live, and takes back no retirement. */
  lemma EntersLive(b: Aux, past: Session, next: Session, g: Token, oldWasActive: bool, marker: bool)
    requires g != 0 && next != ""
    ensures var c := EnterNew(b, past, next, g, oldWasActive, marker);
      Lookup(c.generations, next) == Some(g) && (Retired(b.retired, next, g) ==> Retired(c.retired, next, g))
  {
    RetireEffect(b, next, Lookup(b.generations, next));
  }

  /** An unsafe entry always makes a retired generation live. */
  lemma EntryBreaks(a: Aux, h: Entry)
    requires Inv(a) && !SafeEntry(a, h)
    ensures var b := EnterHandoff(a, h);
      Lookup(b.generations, h.next) == Some(h.token) && Retired(b.retired, h.next, h.token) && !Inv(b)
  {
    var c, b := LeaveOld(a, h.past, h.preserve), EnterHandoff(a, h);
    RetireEffect(a, h.past, Lookup(a.generations, h.past));
    assert Retired(c.retired, h.next, h.token);
    EntersLive(c, h.past, h.next, h.token, h.past in a.active, h.marker);
    assert !Live(b, h.next, b.generations[h.next]);
  }

  /** The locked part keeps the invariant exactly when its entry is safe. */
  lemma EntryExactly(a: Aux, h: Entry)
    requires Inv(a) && h.token <= a.issued
    ensures Inv(EnterHandoff(a, h)) <==> SafeEntry(a, h)
  {
    if SafeEntry(a, h) {
      EntryKeeps(a, h);
    } else {
      EntryBreaks(a, h);
    }
  }

  /** A session handed to itself that way has its retired generation live again, with nothing in between. */
  lemma SelfHandoffBreaks(a: Aux, past: Session, next: Session, caller: Token, preserve: bool, marker: bool)
    requires Inv(a) && caller <= a.issued + 1 && SelfHandoff(a, past, next, caller, preserve)
    ensures var b := Handoff(a, past, next, caller, preserve, marker);
      Lookup(b.generations, next) == Some(caller) && Retired(b.retired, next, caller) && !Inv(b)
  {
    var (b, h) := CheckHandoff(a, past, next, caller, preserve, marker);
    IssueKeeps(a, caller);
    EntryBreaks(b, h);
  }

  /** With nothing in between, the invariant survives exactly when the handoff is not to the session itself by
      the holder of its live generation. */
  lemma HandoffExactly(a: Aux, past: Session, next: Session, caller: Token, preserve: bool, marker: bool)
    requires Inv(a) && caller <= a.issued + 1
    ensures Inv(Handoff(a, past, next, caller, preserve, marker)) <==> !SelfHandoff(a, past, next, caller, preserve)
  {
    var (b, h) := CheckHandoff(a, past, next, caller, preserve, marker);
    IssueKeeps(a, caller);
    EntryExactly(b, h);
  }
}
