/** Register, deactivate, handoff and unmark on the engine itself. */
module AuxSessions {
  import opened Wrappers
  import opened AuxGenerations
  import opened AuxOutcomes

  /** The engine's own sets and maps, changed one at a time. */
  class Sessions {
    var active: set<Session>
    var lineage: set<Session>
    var reused: set<Session>
    var usage: set<Session>
    var guarded: set<Session>
    var parents: map<Session, Session>
    var generations: map<Session, Token>
    var retired: map<Session, set<Token>>
    var issued: Token

    function View(): Aux
      reads this
    {
      Aux(active, lineage, reused, usage, guarded, parents, generations, retired, issued)
    }

    constructor ()
      ensures View() == Aux({}, {}, {}, {}, {}, map[], map[], map[], 0) && Inv(View())
    {
      active, lineage, reused, usage, guarded := {}, {}, {}, {}, {};
      parents, generations, retired, issued := map[], map[], map[], 0;
    }

    method RetireGeneration(s: Session, g: Option<Token>)
      modifies this`retired
      ensures View() == Retire(old(View()), s, g)
    {
      if s != "" && g.Some? && g.value != 0 {
        retired := retired[s := (if s in retired then retired[s] else {}) + {g.value}];
      }
    }

    method IssueToken(g: Token)
      requires g <= issued + 1
      modifies this`issued
      ensures View() == Issue(old(View()), g)
    {
      if g > issued {
        issued := g;
      }
    }

    method ForgetSession(s: Session)
      modifies this
      ensures View() == Forget(old(View()), s)
    {
      active := active - {s};
      usage := usage - {s};
      generations := generations - {s};
      guarded := guarded - {s};
      parents := parents - {s};
    }

    method RegisterWithToken(s: Session, g: Token)
      requires g != 0
      modifies this
      ensures View() == RegisterToken(old(View()), s, g)
    {
      var previous, hadActive, hadUsage := Lookup(generations, s), s in active, s in usage;
      active := active + {s};
      lineage := lineage + {s};
      if previous != Some(g) {
        RetireGeneration(s, previous);
        if hadActive || hadUsage || previous.Some? {
          guarded := guarded + {s};
        }
        usage := usage - {s};
      }
      generations := generations[s := g];
      parents := parents - {s};
    }

    method RegisterWithout(s: Session)
      modifies this
      ensures View() == RegisterBare(old(View()), s)
    {
      var previous, hadActive := Lookup(generations, s), s in active;
      if !(previous.Some? && hadActive) {
        RetireGeneration(s, previous);
        ForgetSession(s);
      }
      active := active + {s};
      lineage := lineage + {s};
    }

    method RegisterSession(s: Session, caller: Token, keepMarker: bool) returns (registered: bool)
      requires Inv(View()) && caller <= issued + 1
      modifies this
      ensures (View(), registered) == Register(old(View()), s, caller, keepMarker)
      ensures Inv(View()) && Moves(old(View()), View())
      ensures s != "" ==> (registered <==> !(Spent(old(View()), s, caller) && s in old(active)))
      ensures s != "" && registered ==> s in active && OthersSame(old(View()), View(), s)
      ensures s != "" && registered && caller != 0 ==>
        s in generations && generations[s] == if Spent(old(View()), s, caller) then old(issued) + 1 else caller
      ensures s != "" && registered && caller == 0 ==> Lookup(generations, s) == old(Lookup(generations, s))
    {
      RegisterKeeps(View(), s, caller, keepMarker);
      if s != "" {
        RegisterOutcome(View(), s, caller, keepMarker);
      }
      IssueToken(caller);
      var g := caller;
      if Retired(retired, s, g) {
        if s in generations && generations[s] != g {
          return false;
        }
        if s in active && s !in generations {
          return false;
        }
        g := issued + 1;
        IssueToken(g);
      }
      if g != 0 {
        RegisterWithToken(s, g);
      } else {
        RegisterWithout(s);
      }
      if !keepMarker {
        reused := reused - {s};
      }
      return true;
    }

    method DeactivateSession(s: Session, g: Token, callerParent: Session) returns (ended: bool)
      requires Inv(View()) && g <= issued
      modifies this
      ensures (View(), ended) == Deactivate(old(View()), s, g, callerParent)
      ensures Inv(View()) && Moves(old(View()), View())
      ensures s != "" && s in old(generations) ==>
        (ended <==> g == old(generations)[s] || (g == 0 && (s !in old(guarded) || s in old(usage))))
      ensures if ended && s != "" then Ended(View(), s) && OthersSame(old(View()), View(), s) else View() == old(View())
    {
      DeactivateKeeps(View(), s, g, callerParent);
      if s != "" {
        DeactivateOutcome(View(), s, g, callerParent);
      }
      if s == "" || Retired(retired, s, g) {
        return false;
      }
      var live := Lookup(generations, s);
      if live.None? {
        var expected := Lookup(parents, s);
        if s in guarded {
          if g == 0 && s !in usage {
            return false;
          }
          if expected.Some? && expected.value != "" && callerParent != "" && callerParent != expected.value {
            return false;
          }
        }
      } else if g != live.value {
        if g != 0 || (s in guarded && s !in usage) {
          return false;
        }
      }
      RetireGeneration(s, Some(if live.Some? && live.value != 0 then live.value else g));
      ForgetSession(s);
      return true;
    }

    method UnmarkSession(s: Session, suppress: bool)
      requires Inv(View())
      modifies this
      ensures View() == Unmark(old(View()), s, suppress)
      ensures Inv(View()) && Moves(old(View()), View())
    {
      UnmarkKeeps(View(), s, suppress);
      if suppress && s in lineage {
        reused := reused + {s};
      }
      RetireGeneration(s, Lookup(generations, s));
      ForgetSession(s);
    }

    method LeaveSession(past: Session, preserve: bool)
      modifies this
      ensures View() == LeaveOld(old(View()), past, preserve)
    {
      if past != "" {
        if !preserve {
          RetireGeneration(past, Lookup(generations, past));
          ForgetSession(past);
        }
        lineage := lineage + {past};
      }
    }

    method GuardNext(past: Session, next: Session, guards: bool)
      modifies this`usage, this`guarded, this`parents
      ensures usage == old(usage) - {next}
      ensures guarded == if guards then old(guarded) + {next} else old(guarded) - {next}
      ensures parents == if guards && past != "" then old(parents)[next := past] else old(parents)
    {
      usage := usage - {next};
      guarded := guarded - {next};
      if guards {
        guarded := guarded + {next};
        assert guarded == old(guarded) + {next};
        if past != "" {
          parents := parents[next := past];
        }
      }
    }

    method TakeOverSession(past: Session, next: Session, g: Token, replaced: bool, guards: bool)
      modifies this
      ensures View() == Entered(old(View()), past, next, g, replaced, guards)
    {
      var previous := Lookup(generations, next);
      if replaced {
        RetireGeneration(next, previous);
      }
      GuardNext(past, next, guards);
      active := active + {next};
      reused := reused - {next};
      if g != 0 {
        generations := generations[next := g];
        parents := parents - {next};
        assert parents == old(parents) - {next};
      } else if previous.None? || replaced {
        generations := generations - {next};
      }
      lineage := lineage + {next};
    }

    method TakeOverReusedSession(past: Session, next: Session, g: Token)
      requires g != 0 ==> Lookup(generations, next) != Some(g)
      modifies this
      ensures View() == TakeOverReused(old(View()), past, next, g)
    {
      RetireGeneration(next, Lookup(generations, next));
      usage := usage - {next};
      guarded := guarded - {next};
      active := active + {next};
      if g != 0 {
        generations := generations[next := g];
        parents := parents - {next};
      } else {
        generations := generations - {next};
        if past != "" {
          parents := parents[next := past];
        }
      }
      lineage := lineage + {next};
    }

    method EnterSession(past: Session, next: Session, g: Token, oldWasActive: bool, marker: bool)
      requires next != ""
      modifies this
      ensures View() == EnterNew(old(View()), past, next, g, oldWasActive, marker)
    {
      if StaleHandoff(View(), past, next, g, oldWasActive) || LateOther(View(), past, next, g, oldWasActive) {
        lineage := lineage + {next};
      } else if next in reused && !(g != 0 && Lookup(generations, next) == Some(g)) {
        TakeOverReusedSession(past, next, g);
      } else {
        TakeOverSession(past, next, g, Replaces(View(), past, next, g), Guards(View(), past, next, g, marker));
      }
    }

    /** The first part of a handoff, before it takes the lock. */
    method LookHandoff(past: Session, next: Session, caller: Token, preserve: bool, marker: bool) returns (h: Entry)
      requires caller <= issued + 1
      modifies this`issued
      ensures (View(), h) == CheckHandoff(old(View()), past, next, caller, preserve, marker)
    {
      IssueToken(caller);
      h := Entry(past, next, caller, preserve, marker, Retired(retired, next, caller));
    }

    /** The second part, under the lock: the invariant comes through exactly when the entry is safe. */
    method EnterLocked(h: Entry)
      requires Inv(View()) && h.token <= issued
      modifies this
      ensures View() == EnterHandoff(old(View()), h)
      ensures Inv(View()) <==> SafeEntry(old(View()), h)
      ensures h.next != "" && h.past != h.next && !h.stale && h.token != 0 ==>
        h.next in active && h.next in generations && generations[h.next] == h.token
    {
      EntryExactly(View(), h);
      if h.next != "" && h.past != h.next {
        EntryOutcome(View(), h);
      }
      if h.stale {
        if h.next != "" {
          lineage := lineage + {h.next};
        }
        return;
      }
      var oldWasActive := h.past in active;
      LeaveSession(h.past, h.preserve);
      if h.next != "" {
        EnterSession(h.past, h.next, h.token, oldWasActive, h.marker);
      }
    }

    /** Both parts, when no other thread gets in between. */
    method HandoffSession(past: Session, next: Session, caller: Token, preserve: bool, marker: bool)
      requires Inv(View()) && caller <= issued + 1
      modifies this
      ensures View() == Handoff(old(View()), past, next, caller, preserve, marker)
      ensures Inv(View()) <==> !SelfHandoff(old(View()), past, next, caller, preserve)
    {
      HandoffExactly(View(), past, next, caller, preserve, marker);
      IssueKeeps(View(), caller);
      var h := LookHandoff(past, next, caller, preserve, marker);
      EnterLocked(h);
    }
  }
}
