/**
  Whole runs of register, deactivate, handoff and unmark on any number of threads.  A handoff looks at the retired
  set before it takes the lock, so other calls fit between its two parts.
 */
module AuxRuns {
  import opened Wrappers
  import opened AuxGenerations

  type Thread = string

  /** The engine's sets and maps, and the handoffs that have looked but not yet entered. */
  datatype World = World(aux: Aux, waiting: map<Thread, Entry>)

  datatype Call =
    | Registers(s: Session, caller: Token, keepMarker: bool)
    | Deactivates(s: Session, generation: Token, callerParent: Session)
    | Unmarks(s: Session, suppress: bool)
    | Caches(s: Session)
    | Checks(thread: Thread, past: Session, next: Session, caller: Token, preserve: bool, marker: bool)
    | Enters(thread: Thread)

  const Start: Aux := Aux({}, {}, {}, {}, {}, map[], map[], map[], 0)

  predicate CanCall(w: World, call: Call) {
    match call
    case Registers(_, caller, _) => caller <= w.aux.issued + 1
    case Deactivates(_, g, _) => g <= w.aux.issued
    case Unmarks(_, _) => true
    case Caches(_) => true
    case Checks(thread, _, _, caller, _, _) => thread !in w.waiting && caller <= w.aux.issued + 1
    case Enters(thread) => thread in w.waiting
  }

  function After(w: World, call: Call): World
    requires CanCall(w, call)
  {
    match call
    case Registers(s, caller, keepMarker) => w.(aux := Register(w.aux, s, caller, keepMarker).0)
    case Deactivates(s, g, parent) => w.(aux := Deactivate(w.aux, s, g, parent).0)
    case Unmarks(s, suppress) => w.(aux := Unmark(w.aux, s, suppress))
    case Caches(s) => w.(aux := w.aux.(usage := w.aux.usage + {s}))
    case Checks(thread, past, next, caller, preserve, marker) =>
      var (a, h) := CheckHandoff(w.aux, past, next, caller, preserve, marker);
      World(a, w.waiting[thread := h])
    case Enters(thread) => World(EnterHandoff(w.aux, w.waiting[thread]), w.waiting - {thread})
  }

  /** Tokens that waiting handoffs carry have been issued. */
  ghost predicate Issued(w: World) {
    forall t :: t in w.waiting ==> w.waiting[t].token <= w.aux.issued
  }

  /** Only a handoff's entry can be unsafe. */
  predicate Safe(w: World, call: Call)
    requires CanCall(w, call)
  {
    call.Enters? ==> SafeEntry(w.aux, w.waiting[call.thread])
  }

  lemma CallKeeps(w: World, call: Call)
    requires Inv(w.aux) && Issued(w) && CanCall(w, call) && Safe(w, call)
    ensures Inv(After(w, call).aux) && Moves(w.aux, After(w, call).aux) && Issued(After(w, call))
  {
    match call
    case Registers(s, caller, keepMarker) => RegisterKeeps(w.aux, s, caller, keepMarker);
    case Deactivates(s, g, parent) => DeactivateKeeps(w.aux, s, g, parent);
    case Unmarks(s, suppress) => UnmarkKeeps(w.aux, s, suppress);
    case Caches(s) =>
    case Checks(_, _, _, caller, _, _) => IssueKeeps(w.aux, caller);
    case Enters(thread) => EntryKeeps(w.aux, w.waiting[thread]);
  }

  ghost predicate IsRun(run: seq<World>, calls: seq<Call>) {
    && |run| == |calls| + 1 && run[0] == World(Start, map[])
    && (forall i {:trigger calls[i]} :: 0 <= i < |calls| ==>
          CanCall(run[i], calls[i]) && run[i + 1] == After(run[i], calls[i]))
  }

  /** No handoff before step `n` entered with a token retired since it looked, or with its own live one. */
  ghost predicate SafeUntil(run: seq<World>, calls: seq<Call>, n: nat)
    requires IsRun(run, calls) && n <= |calls|
  {
    forall i {:trigger calls[i]} :: 0 <= i < n ==> Safe(run[i], calls[i])
  }

  lemma {:induction false} RunSafe(run: seq<World>, calls: seq<Call>, n: nat)
    requires IsRun(run, calls) && n < |run| && SafeUntil(run, calls, n)
    ensures Inv(run[n].aux) && Issued(run[n])
  {
    if n > 0 {
      RunSafe(run, calls, n - 1);
      CallKeeps(run[n - 1], calls[n - 1]);
    }
  }

  /** In every interleaving, no live generation is retired, and its session is active and in the lineage set, in
      all states up to `n`, exactly when every handoff that entered before `n` was safe. */
  lemma RunKeeps(run: seq<World>, calls: seq<Call>, n: nat)
    requires IsRun(run, calls) && n < |run|
    ensures (forall m :: 0 <= m <= n ==> Inv(run[m].aux)) <==> SafeUntil(run, calls, n)
  {
    if SafeUntil(run, calls, n) {
      forall m | 0 <= m <= n ensures Inv(run[m].aux) {
        RunSafe(run, calls, m);
      }
    } else {
      var i := FirstUnsafe(run, calls, n);
      RunSafe(run, calls, i);
      EntryBreaks(run[i].aux, run[i].waiting[calls[i].thread]);
      assert !Inv(run[i + 1].aux);
    }
  }

  lemma {:induction false} FirstUnsafe(run: seq<World>, calls: seq<Call>, n: nat) returns (i: nat)
    requires IsRun(run, calls) && n < |run| && !SafeUntil(run, calls, n)
    ensures i < n && SafeUntil(run, calls, i) && !Safe(run[i], calls[i])
  {
    if SafeUntil(run, calls, n - 1) {
      i := n - 1;
    } else {
      i := FirstUnsafe(run, calls, n - 1);
    }
  }

  // ---- how an entry becomes unsafe ---------------------------------------

  /** A waiting handoff looked at some earlier step, and carries what it saw then. */
  lemma {:induction false} LookedAt(run: seq<World>, calls: seq<Call>, n: nat, t: Thread) returns (i: nat)
    requires IsRun(run, calls) && n < |run| && t in run[n].waiting
    ensures i < n && calls[i].Checks? && calls[i].thread == t && t in run[i + 1].waiting
    ensures run[i + 1].waiting[t] == run[n].waiting[t]
    ensures run[n].waiting[t].stale <==>
      Retired(run[i + 1].aux.retired, run[n].waiting[t].next, run[n].waiting[t].token)
  {
    var call := calls[n - 1];
    if call.Checks? && call.thread == t {
      i := n - 1;
    } else {
      i := LookedAt(run, calls, n - 1, t);
    }
  }

  /** An unsafe entry is a session handed to itself, or a race: another call retired the token after the handoff
      looked and before it entered. */
  lemma UnsafeMeansRaced(run: seq<World>, calls: seq<Call>, n: nat)
    requires IsRun(run, calls) && n < |calls| && !Safe(run[n], calls[n])
    ensures var h := run[n].waiting[calls[n].thread];
      h.past == h.next || exists m: nat ::
        m < n && Retires(run, calls, m, h.next, h.token) && LooksBefore(calls, m, calls[n].thread)
  {
    var t := calls[n].thread;
    var h := run[n].waiting[t];
    if h.past != h.next {
      var i := LookedAt(run, calls, n, t);
      var m := RetiredBetween(run, calls, i + 1, n, h.next, h.token);
      assert LooksBefore(calls, m, t);
    }
  }

  ghost predicate Retires(run: seq<World>, calls: seq<Call>, m: nat, s: Session, g: Token)
    requires IsRun(run, calls)
  {
    m < |calls| && !Retired(run[m].aux.retired, s, g) && Retired(run[m + 1].aux.retired, s, g)
  }

  ghost predicate LooksBefore(calls: seq<Call>, m: nat, t: Thread) {
    exists i: nat :: i < m && i < |calls| && calls[i].Checks? && calls[i].thread == t
  }

  lemma {:induction false} RetiredBetween(run: seq<World>, calls: seq<Call>, i: nat, n: nat, s: Session, g: Token)
    returns (m: nat)
    requires IsRun(run, calls) && i <= n < |run|
    requires !Retired(run[i].aux.retired, s, g) && Retired(run[n].aux.retired, s, g)
    ensures i <= m < n && Retires(run, calls, m, s, g)
  {
    if Retired(run[n - 1].aux.retired, s, g) {
      m := RetiredBetween(run, calls, i, n - 1, s, g);
    } else {
      m := n - 1;
    }
  }

  /** Such a race: a registered session is unmarked between a handoff's look and its entry, and its retired
      generation is live again although the old session is another one. */
  lemma RaceRevives()
    ensures var w0 := World(Start, map[]);
      var w1 := After(w0, Registers("n", 1, false));
      var w2 := After(w1, Checks("t", "o", "n", 1, false, false));
      var w3 := After(w2, Unmarks("n", true));
      var w4 := After(w3, Enters("t"));
      Lookup(w4.aux.generations, "n") == Some(1) && Retired(w4.aux.retired, "n", 1) && !Inv(w4.aux)
  {
    var w1 := After(World(Start, map[]), Registers("n", 1, false));
    RegisterKeeps(Start, "n", 1, false);
    assert w1.aux.generations == map["n" := 1] && w1.aux.issued == 1 && w1.aux.retired == map[];
    UnmarkedEntry(w1, "t", "o", "n", 1);
  }

  /** Unmarking any session between a handoff's look with its live generation and the entry revives it. */
  lemma UnmarkedEntry(w: World, t: Thread, past: Session, next: Session, g: Token)
    requires Inv(w.aux) && t !in w.waiting && next != "" && g <= w.aux.issued
      && Lookup(w.aux.generations, next) == Some(g)
    ensures var looked := After(w, Checks(t, past, next, g, false, false));
      var entered := After(After(looked, Unmarks(next, true)), Enters(t));
      && Lookup(entered.aux.generations, next) == Some(g) && Retired(entered.aux.retired, next, g)
      && !Inv(entered.aux)
  {
    UnmarkedBetween(w.aux, past, next, g);
  }

  lemma UnmarkedBetween(a: Aux, past: Session, next: Session, g: Token)
    requires Inv(a) && next != "" && g <= a.issued && Lookup(a.generations, next) == Some(g)
    ensures var (b, h) := CheckHandoff(a, past, next, g, false, false);
      var c := EnterHandoff(Unmark(b, next, true), h);
      Lookup(c.generations, next) == Some(g) && Retired(c.retired, next, g) && !Inv(c)
  {
    assert Live(a, next, a.generations[next]);
    var (b, h) := CheckHandoff(a, past, next, g, false, false);
    UnmarkKeeps(b, next, true);
    RetireEffect(b, next, Some(g));
    EntryBreaks(Unmark(b, next, true), h);
  }

  // ---- retirement is for good, while entries are safe ---------------------

  lemma RunMoves(run: seq<World>, calls: seq<Call>, i: nat)
    requires IsRun(run, calls) && i < |calls| && SafeUntil(run, calls, i + 1)
    ensures Moves(run[i].aux, run[i + 1].aux)
  {
    RunSafe(run, calls, i);
    CallKeeps(run[i], calls[i]);
  }

  lemma {:induction false} RetiredStays(run: seq<World>, calls: seq<Call>, m: nat, n: nat, s: Session, g: Token)
    requires IsRun(run, calls) && m <= n < |run| && SafeUntil(run, calls, n) && Retired(run[m].aux.retired, s, g)
    ensures Retired(run[n].aux.retired, s, g)
  {
    if m < n {
      RetiredStays(run, calls, m, n - 1, s, g);
      RunMoves(run, calls, n - 1);
      assert Retired(run[n - 1].aux.retired, s, g);
    }
  }

  /** A retired generation is never live again. */
  lemma RetiredForGood(run: seq<World>, calls: seq<Call>, m: nat, n: nat, s: Session, g: Token)
    requires IsRun(run, calls) && m <= n < |run| && SafeUntil(run, calls, n) && Retired(run[m].aux.retired, s, g)
    ensures Lookup(run[n].aux.generations, s) != Some(g)
  {
    RetiredStays(run, calls, m, n, s, g);
    RunSafe(run, calls, n);
    if s in run[n].aux.generations {
      assert Live(run[n].aux, s, run[n].aux.generations[s]);
    }
  }

  /** A generation that was live for a session and then was not never is again, while entries are safe. */
  lemma NeverReturns(run: seq<World>, calls: seq<Call>, i: nat, j: nat, k: nat, s: Session)
    requires IsRun(run, calls) && i < j < k < |run| && SafeUntil(run, calls, k)
    requires s != "" && s in run[i].aux.generations
    requires Lookup(run[j].aux.generations, s) != Some(run[i].aux.generations[s])
    ensures Lookup(run[k].aux.generations, s) != Some(run[i].aux.generations[s])
  {
    var m := Retirement(run, calls, i, j, s);
    RetiredForGood(run, calls, m, k, s, run[i].aux.generations[s]);
  }

  lemma {:induction false} Retirement(run: seq<World>, calls: seq<Call>, i: nat, j: nat, s: Session) returns (m: nat)
    requires IsRun(run, calls) && i < j < |run| && SafeUntil(run, calls, j)
    requires s != "" && s in run[i].aux.generations
    requires Lookup(run[j].aux.generations, s) != Some(run[i].aux.generations[s])
    ensures i < m <= j && Retired(run[m].aux.retired, s, run[i].aux.generations[s])
  {
    var g := run[i].aux.generations[s];
    if j > i + 1 && Lookup(run[j - 1].aux.generations, s) != Some(g) {
      m := Retirement(run, calls, i, j - 1, s);
    } else {
      RunMoves(run, calls, j - 1);
      assert s in run[j - 1].aux.generations;
      m := j;
    }
  }
}
