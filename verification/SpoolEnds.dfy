/**
  Hooks and workers stop: without new records and crashes every interleaving ends within a bounded number of steps, is
  never stuck before, and leaves every record processed.
 */
module SpoolEnds {
  import opened Wrappers
  import opened Spool
  import opened SpoolRuns

  // ---- what else every state keeps ---------------------------------------

  /** What the holder has still to claim is there, and an older claim of a record it listed is claimed before. */
  ghost predicate ToDoFits(s: State) {
    forall p :: Holds(s, p) ==> Lists(s, s.procs[p].worker)
  }

  predicate Lists(s: State, w: WorkerStage)
    requires w.Holding?
  {
    && (!w.listed ==> w.todo == {} && w.got == map[])
    && (forall name :: name in w.todo ==>
          match name
          case Json(k) => k in s.json && (k in s.claimed ==> Claimed(k) in w.todo || k in w.got)
          case Claimed(k) => k in s.claimed)
  }

  /** A hook waits for a worker. */
  ghost predicate WaitsFit(s: State) {
    forall p :: p in s.procs && s.procs[p].Hook? && s.procs[p].hook.Waiting? ==>
      s.procs[p].hook.worker in s.procs && s.procs[s.procs[p].hook.worker].Worker?
  }

  ghost predicate Sound(s: State) {
    Safe(s) && ToDoFits(s) && WaitsFit(s)
  }

  lemma KindsStay(s: State, a: Action, q: Pid)
    requires Enabled(s, a) && q in s.procs
    ensures q in Apply(s, a).procs && (Apply(s, a).procs[q].Worker? <==> s.procs[q].Worker?)
  {
    if q != a.pid {
      Frame(s, a);
    }
  }

  /** A hook that waits now waited before, or has started its worker with this step. */
  lemma WaitsSince(s: State, a: Action, p: Pid, worker: Pid)
    requires Enabled(s, a) && HookAt(Apply(s, a), p, Waiting(worker))
    ensures HookAt(s, p, Waiting(worker)) || (a.Start? && a.child == worker && worker != p)
  {
  }

  lemma StepWaits(s: State, a: Action)
    requires WaitsFit(s) && Enabled(s, a)
    ensures WaitsFit(Apply(s, a))
  {
    var s' := Apply(s, a);
    forall p | p in s'.procs && s'.procs[p].Hook? && s'.procs[p].hook.Waiting?
      ensures s'.procs[p].hook.worker in s'.procs && s'.procs[s'.procs[p].hook.worker].Worker?
    {
      var worker := s'.procs[p].hook.worker;
      WaitsSince(s, a, p, worker);
      if HookAt(s, p, Waiting(worker)) {
        KindsStay(s, a, worker);
      }
    }
  }

  lemma StepToDo(s: State, a: Action)
    requires Safe(s) && ToDoFits(s) && Enabled(s, a)
    ensures ToDoFits(Apply(s, a))
  {
    var s' := Apply(s, a);
    Frame(s, a);
    ReadsMove(s, a);
    forall p | Holds(s', p) ensures Lists(s', s'.procs[p].worker) {
      if p != a.pid {
        assert Holds(s, p) && s.lock == Some(p);
      }
    }
  }

  lemma {:induction false} RunSound(run: seq<State>, actions: seq<Action>, n: nat)
    requires IsRun(run, actions) && n < |run|
    ensures Sound(run[n])
  {
    RunSafe(run, actions, n);
    if n > 0 {
      RunSound(run, actions, n - 1);
      StepToDo(run[n - 1], actions[n - 1]);
      StepWaits(run[n - 1], actions[n - 1]);
    }
  }

  // ---- a bound on what is left to do -------------------------------------

  function Files(s: State): nat {
    |s.json| + |s.claimed|
  }

  /** Steps a worker can still take, with so many files in the spool, before one of them goes. */
  function WorkerRank(w: WorkerStage, n: nat): nat {
    match w
    case Ended(_) => 0
    case Rescanning => if n == 0 then 2 else 2 * n + 4
    case Asking(_) => if n == 0 then 5 else 2 * n + 3
    case Holding(listed, todo, got) =>
      if !listed then (if n == 0 then 4 else 2 * n + 2)
      else if todo == {} && got == map[] then (if n == 0 then 3 else 2 * n + 5)
      else 2 * |todo| + |got| + 1
  }

  /** The same of a hook and the workers it still starts. */
  function HookRank(stage: HookStage, bounded: bool, n: nat): nat {
    var worker := 2 * n + 5;
    match stage
    case Gone => 0
    case Waiting(_) => worker + 4
    case Ready => if bounded then 2 * worker + 5 else worker + 1
    case Probing => if bounded then 2 * worker + 6 else worker + 2
    case Written => if bounded then 2 * worker + 7 else worker + 3
  }

  function Rank(p: Proc, n: nat): nat {
    match p
    case Hook(stage, _, bounded) => HookRank(stage, bounded, n)
    case Worker(w) => WorkerRank(w, n)
  }

  ghost function Pick(procs: map<Pid, Proc>): (p: Pid)
    requires procs != map[]
    ensures p in procs
  {
    var p :| p in procs;
    p
  }

  ghost function Total(procs: map<Pid, Proc>, n: nat): nat
    decreases |procs|
  {
    if procs == map[] then 0
    else
      var p := Pick(procs);
      Rank(procs[p], n) + Total(procs - {p}, n)
  }

  lemma {:induction false} TotalSplit(procs: map<Pid, Proc>, n: nat, p: Pid)
    requires p in procs
    ensures Total(procs, n) == Rank(procs[p], n) + Total(procs - {p}, n)
    decreases |procs|
  {
    var q := Pick(procs);
    if p != q {
      TotalSplit(procs - {q}, n, p);
      TotalSplit(procs - {p}, n, q);
      assert (procs - {q}) - {p} == (procs - {p}) - {q};
    }
  }

  lemma TotalPut(procs: map<Pid, Proc>, n: nat, p: Pid, proc: Proc)
    ensures Total(procs[p := proc], n) + (if p in procs then Rank(procs[p], n) else 0)
         == Total(procs, n) + Rank(proc, n)
  {
    TotalSplit(procs[p := proc], n, p);
    assert procs[p := proc] - {p} == procs - {p};
    if p in procs {
      TotalSplit(procs, n, p);
    } else {
      assert procs - {p} == procs;
    }
  }

  lemma {:induction false} TotalFalls(procs: map<Pid, Proc>, m: nat, n: nat)
    requires m <= n
    ensures Total(procs, m) <= Total(procs, n)
    decreases |procs|
  {
    if procs != map[] {
      TotalFalls(procs - {Pick(procs)}, m, n);
    }
  }

  /** Steps that the files themselves can still cause: what the holder may yet have to do when one goes. */
  function FileRank(n: nat): nat {
    if n == 0 then 0 else FileRank(n - 1) + 2 * n + 6
  }

  /** How many steps there can still be. */
  ghost function StepsLeft(s: State): nat {
    FileRank(Files(s)) + Total(s.procs, Files(s))
  }

  lemma {:induction false} NamesCount(s: State)
    ensures |Names(s)| <= Files(s)
  {
    var a, b := set k | k in s.json :: Json(k), set k | k in s.claimed :: Claimed(k);
    JsonCount(s.json.Keys, a);
    ClaimedCount(s.claimed.Keys, b);
    assert Names(s) == a + b;
  }

  lemma {:induction false} JsonCount(keys: set<Key>, names: set<Name>)
    requires names == set k | k in keys :: Json(k)
    ensures |names| == |keys|
  {
    if keys != {} {
      var k :| k in keys;
      JsonCount(keys - {k}, names - {Json(k)});
    }
  }

  lemma {:induction false} ClaimedCount(keys: set<Key>, names: set<Name>)
    requires names == set k | k in keys :: Claimed(k)
    ensures |names| == |keys|
  {
    if keys != {} {
      var k :| k in keys;
      ClaimedCount(keys - {k}, names - {Claimed(k)});
    }
  }

  /** Steps that bring nothing new into the spool and crash nothing. */
  predicate Goes(a: Action) {
    !a.Write? && !a.Crash?
  }

  // ---- every step takes one off ------------------------------------------

  /** The step changes one process, which has fewer steps left, and no number of files. */
  ghost predicate Lowers(s: State, s': State, pid: Pid) {
    && Files(s') == Files(s) && pid in s.procs && pid in s'.procs && s'.procs == s.procs[pid := s'.procs[pid]]
    && Rank(s'.procs[pid], Files(s)) < Rank(s.procs[pid], Files(s))
  }

  lemma BusyRank(todo: set<Name>, got: map<Key, nat>, name: Name, more: map<Key, nat>, n: nat)
    requires name in todo && |more| <= |got| + 1 && (todo - {name} != {} || more != map[])
    ensures WorkerRank(Holding(true, todo - {name}, more), n) < WorkerRank(Holding(true, todo, got), n)
  {
    assert |todo - {name}| == |todo| - 1;
  }

  lemma PutSize(m: map<Key, nat>, k: Key, v: nat)
    ensures |m[k := v]| <= |m| + 1 && m[k := v] != map[]
    ensures k !in m ==> |m[k := v]| == |m| + 1
    ensures k in m ==> |m[k := v]| == |m| && |m - {k}| == |m| - 1
  {
    assert m[k := v].Keys == m.Keys + {k};
    assert (m - {k}).Keys == m.Keys - {k};
    assert |m| == |m.Keys| && |m[k := v]| == |m[k := v].Keys| && |m - {k}| == |(m - {k}).Keys|;
    assert k in m[k := v];
  }

  lemma ClaimCounts(s: State, pid: Pid, name: Name)
    requires Sound(s) && Enabled(s, Claim(pid, name))
    ensures Lowers(s, ClaimName(s, pid, name), pid)
  {
    var w, k := s.procs[pid].worker, name.key;
    assert Lists(s, w);
    if name.Json? && k in s.claimed {
      assert Claimed(k) in w.todo - {name} || k in w.got;
      BusyRank(w.todo, w.got, name, w.got, Files(s));
    } else {
      var v := if name.Json? then s.json[k] else s.claimed[k];
      PutSize(w.got, k, v);
      BusyRank(w.todo, w.got, name, w.got[k := v], Files(s));
      if name.Json? {
        PutSize(s.json, k, v);
        PutSize(s.claimed, k, v);
      }
    }
  }

  lemma DisposeCounts(s: State, pid: Pid, key: Key)
    requires Sound(s) && Enabled(s, Dispose(pid, key))
    ensures var s' := Apply(s, Dispose(pid, key));
      && Files(s') + 1 == Files(s) && pid in s'.procs && s'.procs == s.procs[pid := s'.procs[pid]]
      && Rank(s'.procs[pid], Files(s')) <= 2 * Files(s') + 5
  {
    var w, s' := s.procs[pid].worker, Apply(s, Dispose(pid, key));
    assert key in s.claimed;
    assert s'.claimed.Keys == s.claimed.Keys - {key};
    var got := s'.procs[pid].worker.got;
    assert got.Keys <= s'.claimed.Keys;
    SubsetSize(got.Keys, s'.claimed.Keys);
    assert |got| == |got.Keys| && |s'.claimed| == |s'.claimed.Keys|;
  }

  lemma SubsetSize<T>(a: set<T>, b: set<T>)
    requires a <= b
    ensures |a| <= |b|
  {
    assert b == a + (b - a);
  }

  lemma ListCounts(s: State, pid: Pid)
    requires Sound(s) && Enabled(s, List(pid))
    ensures Lowers(s, Apply(s, List(pid)), pid)
  {
    NamesCount(s);
    NamesSome(s);
  }

  lemma NamesSome(s: State)
    ensures Files(s) == 0 <==> Names(s) == {}
  {
    if k :| k in s.json {
      assert Json(k) in Names(s);
    } else if k :| k in s.claimed {
      assert Claimed(k) in Names(s);
    } else {
      assert s.json == map[] && s.claimed == map[];
    }
  }

  lemma PendingCounts(s: State)
    ensures Pending(s) <==> Files(s) > 0
  {
  }

  lemma AskCounts(s: State, pid: Pid)
    requires Enabled(s, Ask(pid))
    ensures Lowers(s, Apply(s, Ask(pid)), pid)
  {
  }

  lemma ReleaseCounts(s: State, pid: Pid)
    requires Enabled(s, Release(pid))
    ensures Lowers(s, Apply(s, Release(pid)), pid)
  {
  }

  lemma RescanCounts(s: State, pid: Pid, clean: bool)
    requires Enabled(s, Rescan(pid, clean))
    ensures Lowers(s, Apply(s, Rescan(pid, clean)), pid)
  {
    PendingCounts(s);
  }

  lemma AbandonCounts(s: State, pid: Pid, parent: Pid)
    requires Enabled(s, Abandon(pid, parent))
    ensures Lowers(s, Apply(s, Abandon(pid, parent)), pid)
  {
  }

  lemma WorkerCounts(s: State, a: Action)
    requires Enabled(s, a) && (a.Ask? || a.Release? || a.Rescan? || a.Abandon?)
    ensures Lowers(s, Apply(s, a), a.pid)
  {
    match a
    case Ask(pid) => AskCounts(s, pid);
    case Release(pid) => ReleaseCounts(s, pid);
    case Rescan(pid, clean) => RescanCounts(s, pid, clean);
    case Abandon(pid, parent) => AbandonCounts(s, pid, parent);
  }

  lemma HookCounts(s: State, a: Action)
    requires Enabled(s, a) && (a.Probe? || a.Unprobe? || a.Resume?)
    ensures Lowers(s, Apply(s, a), a.pid)
  {
  }

  lemma OneCounts(s: State, s': State, pid: Pid)
    requires Lowers(s, s', pid)
    ensures StepsLeft(s') < StepsLeft(s)
  {
    TotalPut(s.procs, Files(s), pid, s'.procs[pid]);
  }

  lemma StartRank(hook: Proc, child: Pid, n: nat)
    requires hook.Hook? && hook.hook.Ready?
    ensures Rank(hook.(hook := if hook.bounded then Waiting(child) else Gone), n) + Rank(Worker(Asking(true)), n)
      < Rank(hook, n)
  {
  }

  lemma StartCounts(s: State, pid: Pid, child: Pid)
    requires Enabled(s, Start(pid, child))
    ensures StepsLeft(Apply(s, Start(pid, child))) < StepsLeft(s)
  {
    var hook, n := s.procs[pid], Files(s);
    var next := hook.(hook := if hook.bounded then Waiting(child) else Gone);
    var s' := Apply(s, Start(pid, child));
    assert s'.procs == s.procs[child := Worker(Asking(true))][pid := next] && Files(s') == n;
    StartRank(hook, child, n);
    StartTotal(s.procs, n, pid, child, next);
  }

  lemma StartTotal(procs: map<Pid, Proc>, n: nat, pid: Pid, child: Pid, next: Proc)
    requires pid in procs && child !in procs
    requires Rank(next, n) + Rank(Worker(Asking(true)), n) < Rank(procs[pid], n)
    ensures Total(procs[child := Worker(Asking(true))][pid := next], n) < Total(procs, n)
  {
    TotalPut(procs, n, child, Worker(Asking(true)));
    TotalPut(procs[child := Worker(Asking(true))], n, pid, next);
  }

  lemma DisposeLess(s: State, pid: Pid, key: Key)
    requires Sound(s) && Enabled(s, Dispose(pid, key))
    ensures StepsLeft(Apply(s, Dispose(pid, key))) < StepsLeft(s)
  {
    DisposeCounts(s, pid, key);
    FileGone(s, Apply(s, Dispose(pid, key)), pid);
  }

  lemma FileGone(s: State, s': State, pid: Pid)
    requires pid in s.procs && pid in s'.procs && s'.procs == s.procs[pid := s'.procs[pid]]
    requires Files(s') + 1 == Files(s) && Rank(s'.procs[pid], Files(s')) <= 2 * Files(s') + 5
    ensures StepsLeft(s') < StepsLeft(s)
  {
    var n, next := Files(s), s'.procs[pid];
    DisposeTotal(s.procs, n, pid, next);
    assert Total(s'.procs, n - 1) == Total(s.procs[pid := next], n - 1);
  }

  lemma DisposeTotal(procs: map<Pid, Proc>, n: nat, pid: Pid, next: Proc)
    requires pid in procs && 0 < n && Rank(next, n - 1) <= 2 * (n - 1) + 5
    ensures FileRank(n - 1) + Total(procs[pid := next], n - 1) < FileRank(n) + Total(procs, n)
  {
    TotalFalls(procs, n - 1, n);
    TotalPut(procs, n - 1, pid, next);
  }

  /** Every step of a hook or worker leaves fewer. */
  lemma StepCounts(s: State, a: Action)
    requires Sound(s) && Enabled(s, a) && Goes(a)
    ensures StepsLeft(Apply(s, a)) < StepsLeft(s)
  {
    if a.Dispose? {
      DisposeLess(s, a.pid, a.key);
    } else if a.Start? {
      StartCounts(s, a.pid, a.child);
    } else {
      if a.Claim? {
        ClaimCounts(s, a.pid, a.name);
      } else if a.List? {
        ListCounts(s, a.pid);
      } else if a.Probe? || a.Unprobe? || a.Resume? {
        HookCounts(s, a);
      } else {
        WorkerCounts(s, a);
      }
      OneCounts(s, Apply(s, a), a.pid);
    }
  }

  // ---- and while someone has not exited there is a step ------------------

  lemma {:induction false} Shorter(pids: set<Pid>) returns (n: nat)
    ensures forall p :: p in pids ==> |p| < n
  {
    if pids == {} {
      n := 0;
    } else {
      var p :| p in pids;
      n := Shorter(pids - {p});
      n := if |p| < n then n else |p| + 1;
    }
  }

  /** There is always a process id that nobody has. */
  lemma NewPid(pids: set<Pid>) returns (p: Pid)
    ensures p !in pids
  {
    var n := Shorter(pids);
    p := seq(n, _ => 'p');
  }

  lemma WorkerGoesOn(s: State, p: Pid)
    requires Sound(s) && Live(s, p)
    ensures exists a :: Enabled(s, a) && Goes(a)
  {
    match s.procs[p].worker
    case Asking(_) => assert Enabled(s, Ask(p));
    case Rescanning => assert Enabled(s, Rescan(p, true));
    case Holding(listed, todo, got) =>
      assert Holds(s, p) && Lists(s, s.procs[p].worker);
      if !listed {
        assert Enabled(s, List(p));
      } else if todo != {} {
        var name :| name in todo;
        assert Enabled(s, Claim(p, name));
      } else if got != map[] {
        var key :| key in got;
        assert Enabled(s, Dispose(p, key));
      } else {
        assert Enabled(s, Release(p));
      }
  }

  lemma HookGoesOn(s: State, p: Pid)
    requires Sound(s) && p in s.procs && s.procs[p].Hook? && !s.procs[p].hook.Gone?
    ensures exists a :: Enabled(s, a) && Goes(a)
  {
    match s.procs[p].hook
    case Written => assert Enabled(s, Probe(p));
    case Probing => assert Enabled(s, Unprobe(p));
    case Ready =>
      var child := NewPid(s.procs.Keys);
      assert Enabled(s, Start(p, child));
    case Waiting(w) =>
      if Live(s, w) {
        WorkerGoesOn(s, w);
      } else {
        assert Enabled(s, Resume(p));
      }
  }

  /** Until every hook and worker has exited, one of them can take a step. */
  lemma NotStuck(s: State)
    requires Sound(s) && !Quiescent(s)
    ensures exists a :: Enabled(s, a) && Goes(a)
  {
    var p :| p in s.procs && !(if s.procs[p].Hook? then s.procs[p].hook.Gone? else s.procs[p].worker.Ended?);
    if s.procs[p].Hook? {
      HookGoesOn(s, p);
    } else {
      WorkerGoesOn(s, p);
    }
  }

  // ---- so every record is processed --------------------------------------

  /** From a step on nothing new is written and no worker crashes. */
  ghost predicate GoesSince(actions: seq<Action>, from: nat) {
    forall i :: from <= i < |actions| ==> Goes(actions[i])
  }

  /** Then every interleaving ends, within a number of steps known beforehand. */
  lemma {:induction false} RunEnds(run: seq<State>, actions: seq<Action>, from: nat, n: nat)
    requires IsRun(run, actions) && from <= n < |run| && GoesSince(actions, from)
    ensures n - from + StepsLeft(run[n]) <= StepsLeft(run[from])
  {
    if n > from {
      RunEnds(run, actions, from, n - 1);
      RunSound(run, actions, n - 1);
      StepCounts(run[n - 1], actions[n - 1]);
    }
  }

  /** No hook or worker can take a step. */
  ghost predicate NoStep(s: State) {
    forall a :: Goes(a) ==> !Enabled(s, a)
  }

  lemma AllGone(s: State)
    requires Sound(s) && NoStep(s)
    ensures Quiescent(s)
  {
    if !Quiescent(s) {
      NotStuck(s);
      assert false;
    }
  }

  lemma EndsClean(run: seq<State>, actions: seq<Action>, written: nat)
    requires IsRun(run, actions) && written < |actions| && actions[written].Write? && GoesSince(actions, written + 1)
    requires Sound(run[|actions|]) && NoStep(run[|actions|])
    ensures Processed(run[|actions|])
  {
    AllGone(run[|actions|]);
    assert CrashFreeSince(actions, written);
    NoLostWakeup(run, actions, written, run[|actions|]);
  }

  /** The spool is empty, and the latest record of every key was processed. */
  ghost predicate Processed(s: State) {
    && s.json == map[] && s.claimed == map[]
    && forall k :: k in s.written ==> k in s.finished && s.finished[k] == s.written[k]
  }

  /** And when no step is left, the spool is empty and the latest record of every key was processed, whoever wrote it
      and whatever crashed before the last one was written. */
  lemma EveryRecordProcessed(run: seq<State>, actions: seq<Action>, written: nat)
    requires IsRun(run, actions) && written < |actions| && actions[written].Write? && GoesSince(actions, written + 1)
    ensures |actions| - (written + 1) <= StepsLeft(run[written + 1])
    ensures NoStep(run[|actions|]) ==> Processed(run[|actions|])
  {
    RunEnds(run, actions, written + 1, |actions|);
    if NoStep(run[|actions|]) {
      RunSound(run, actions, |actions|);
      EndsClean(run, actions, written);
    }
  }
}
