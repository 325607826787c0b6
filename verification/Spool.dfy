/**
  The hand-over between hooks and workers: hooks write spool records and start workers, workers take one
  lock without waiting, claim records by renaming them, remove them once drained, release the lock and
  rescan.  Every interleaving of the single file operations is a run.
 */
module Spool {
  import opened Wrappers

  type Pid = string
  type Key = string

  /** A file of the spool directory: a record as written, or as a worker claimed it. */
  datatype Name = Json(key: Key) | Claimed(key: Key)

  datatype HookStage = Written | Probing | Ready | Waiting(worker: Pid) | Gone
  datatype End = FoundHeld | Complete | Incomplete
  datatype WorkerStage =
    | Asking(first: bool)
    | Holding(listed: bool, todo: set<Name>, got: map<Key, nat>)
    | Rescanning
    | Ended(how: End)
  datatype Proc = Hook(hook: HookStage, probes: bool, bounded: bool) | Worker(worker: WorkerStage)

  /** Records carry the number of the write that made them; `finished` is the last one processed per key
      (drained, or set aside as failed). */
  datatype State = State(json: map<Key, nat>, claimed: map<Key, nat>, lock: Option<Pid>, procs: map<Pid, Proc>,
                         written: map<Key, nat>, finished: map<Key, nat>)

  datatype Action =
    | Write(pid: Pid, key: Key, version: nat, probes: bool, bounded: bool)
    | Probe(pid: Pid)
    | Unprobe(pid: Pid)
    | Start(pid: Pid, child: Pid)
    | Resume(pid: Pid)
    | Ask(pid: Pid)
    | List(pid: Pid)
    | Claim(pid: Pid, name: Name)
    | Dispose(pid: Pid, key: Key)
    | Release(pid: Pid)
    | Rescan(pid: Pid, clean: bool)
    | Abandon(pid: Pid, parent: Pid)
    | Crash(pid: Pid)

  predicate Pending(s: State) {
    s.json != map[] || s.claimed != map[]
  }

  predicate At(s: State, pid: Pid, p: Proc) {
    pid in s.procs && s.procs[pid] == p
  }

  predicate HookAt(s: State, pid: Pid, stage: HookStage) {
    pid in s.procs && s.procs[pid].Hook? && s.procs[pid].hook == stage
  }

  predicate Holds(s: State, pid: Pid) {
    pid in s.procs && s.procs[pid].Worker? && s.procs[pid].worker.Holding?
  }

  predicate Enabled(s: State, a: Action) {
    match a
    case Write(pid, key, version, _, _) => pid !in s.procs && (key in s.written ==> s.written[key] < version)
    case Probe(pid) => HookAt(s, pid, Written)
    case Unprobe(pid) => HookAt(s, pid, Probing)
    case Start(pid, child) => HookAt(s, pid, Ready) && child !in s.procs
    case Resume(pid) =>
      pid in s.procs && s.procs[pid].Hook? && s.procs[pid].hook.Waiting? && WorkerEnded(s, s.procs[pid].hook.worker)
    case Ask(pid) => pid in s.procs && s.procs[pid].Worker? && s.procs[pid].worker.Asking?
    case List(pid) => Holds(s, pid) && !s.procs[pid].worker.listed
    case Claim(pid, name) => Holds(s, pid) && name in s.procs[pid].worker.todo
    case Dispose(pid, key) =>
      Holds(s, pid) && s.procs[pid].worker.listed && s.procs[pid].worker.todo == {} && key in s.procs[pid].worker.got
    case Release(pid) => At(s, pid, Worker(Holding(true, {}, map[])))
    case Rescan(pid, _) => At(s, pid, Worker(Rescanning))
    case Abandon(pid, parent) => Live(s, pid) && HookAt(s, parent, Waiting(pid))
    case Crash(pid) => Live(s, pid)
  }

  predicate WorkerEnded(s: State, pid: Pid) {
    pid in s.procs && s.procs[pid].Worker? && s.procs[pid].worker.Ended?
  }

  predicate Live(s: State, pid: Pid) {
    pid in s.procs && s.procs[pid].Worker? && !s.procs[pid].worker.Ended?
  }

  function Names(s: State): set<Name> {
    (set k | k in s.json :: Json(k)) + (set k | k in s.claimed :: Claimed(k))
  }

  function Set(s: State, pid: Pid, p: Proc): State {
    s.(procs := s.procs[pid := p])
  }

  /** Nobody waits for the lock: a worker or a probing hook that meets it held gives way. */
  function Apply(s: State, a: Action): State
    requires Enabled(s, a)
  {
    match a
    case Write(pid, key, version, probes, bounded) =>
      Set(s, pid, Hook(if probes then Written else Ready, probes, bounded)).(json := s.json[key := version],
        written := s.written[key := version])
    case Probe(pid) =>
      if s.lock.Some? then Set(s, pid, s.procs[pid].(hook := Gone))
      else Set(s, pid, s.procs[pid].(hook := Probing)).(lock := Some(pid))
    case Unprobe(pid) => Set(s, pid, s.procs[pid].(hook := Ready)).(lock := None)
    case Start(pid, child) =>
      Set(Set(s, child, Worker(Asking(true))), pid,
        s.procs[pid].(hook := if s.procs[pid].bounded then Waiting(child) else Gone))
    case Resume(pid) =>
      var hook := s.procs[pid];
      Set(s, pid,
        if s.procs[hook.hook.worker].worker.how == Incomplete then Hook(Written, true, false) else hook.(hook := Gone))
    case Ask(pid) =>
      if s.lock.Some? then Set(s, pid, Worker(Ended(if s.procs[pid].worker.first then FoundHeld else Incomplete)))
      else Set(s, pid, Worker(Holding(false, {}, map[]))).(lock := Some(pid))
    case List(pid) => Set(s, pid, Worker(Holding(true, Names(s), map[])))
    case Claim(pid, name) => ClaimName(s, pid, name)
    case Dispose(pid, key) =>
      var w := s.procs[pid].worker;
      Set(s, pid, Worker(w.(got := w.got - {key}))).(claimed := s.claimed - {key},
        finished := s.finished[key := w.got[key]])
    case Release(pid) => Set(s, pid, Worker(Rescanning)).(lock := None)
    case Rescan(pid, clean) =>
      Set(s, pid, Worker(if Pending(s) then Asking(false) else Ended(if clean then Complete else Incomplete)))
    case Abandon(pid, parent) => Drop(s, pid)
    case Crash(pid) => Drop(s, pid)
  }

  function Drop(s: State, pid: Pid): State {
    Set(s, pid, Worker(Ended(Incomplete))).(lock := if s.lock == Some(pid) then None else s.lock)
  }

  /** A record is claimed by renaming it, unless an older claim of its key is still there. */
  function ClaimName(s: State, pid: Pid, name: Name): State
    requires Holds(s, pid)
  {
    var w := s.procs[pid].worker;
    var rest := w.(todo := w.todo - {name});
    match name
    case Json(k) =>
      if k in s.claimed || k !in s.json then Set(s, pid, Worker(rest))
      else Set(s, pid, Worker(rest.(got := w.got[k := s.json[k]]))).(json := s.json - {k},
        claimed := s.claimed[k := s.json[k]])
    case Claimed(k) =>
      if k in s.claimed then Set(s, pid, Worker(rest.(got := w.got[k := s.claimed[k]]))) else Set(s, pid, Worker(rest))
  }

  // ---- safety: no record is deleted unread -------------------------------

  ghost predicate LockFits(s: State) {
    && (s.lock.Some? ==> Holds(s, s.lock.value) || HookAt(s, s.lock.value, Probing))
    && (forall p :: Holds(s, p) || HookAt(s, p, Probing) ==> s.lock == Some(p))
  }

  /** What the holder has read is what the claimed file holds. */
  ghost predicate ReadsFit(s: State) {
    forall p, k :: Holds(s, p) && k in s.procs[p].worker.got ==>
      k in s.claimed && s.claimed[k] == s.procs[p].worker.got[k]
  }

  /** The latest record of every key is waiting in the spool, claimed, or processed. */
  ghost predicate NoneLost(s: State) {
    forall k :: k in s.written ==>
      if k in s.json then s.json[k] == s.written[k]
      else if k in s.claimed then s.claimed[k] == s.written[k]
      else k in s.finished && s.finished[k] == s.written[k]
  }

  ghost predicate Safe(s: State) {
    LockFits(s) && ReadsFit(s) && NoneLost(s)
  }

  predicate InLock(s: State, pid: Pid) {
    Holds(s, pid) || HookAt(s, pid, Probing)
  }

  /** Only the acting process, and a child it starts, change. */
  ghost predicate OnlyChanges(s: State, s': State, pid: Pid) {
    forall q :: q != pid ==>
      (q in s.procs ==> q in s'.procs && s'.procs[q] == s.procs[q])
        && (q in s'.procs && q !in s.procs ==> s'.procs[q] == Worker(Asking(true)))
  }

  lemma Frame(s: State, a: Action)
    requires Enabled(s, a)
    ensures OnlyChanges(s, Apply(s, a), a.pid)
  {
  }

  /** The lock is taken when free, given up by its holder, or left alone, together with the process's stage. */
  lemma LockMoves(s: State, a: Action)
    requires LockFits(s) && Enabled(s, a)
    ensures var s' := Apply(s, a);
      || (s'.lock == s.lock && (InLock(s', a.pid) <==> InLock(s, a.pid)))
      || (s.lock == None && s'.lock == Some(a.pid) && InLock(s', a.pid))
      || (s.lock == Some(a.pid) && s'.lock == None && !InLock(s', a.pid))
  {
    assert InLock(s, a.pid) ==> s.lock == Some(a.pid);
  }

  lemma StepLock(s: State, a: Action)
    requires LockFits(s) && Enabled(s, a)
    ensures LockFits(Apply(s, a))
  {
    var s' := Apply(s, a);
    Frame(s, a);
    LockMoves(s, a);
    forall p | InLock(s', p) ensures s'.lock == Some(p) {
      if p != a.pid {
        assert InLock(s, p);
      }
    }
  }

  /** The worker has read its claimed files as they are. */
  ghost predicate ReadAs(s: State, pid: Pid) {
    Holds(s, pid) ==> forall k :: k in s.procs[pid].worker.got ==>
      k in s.claimed && s.claimed[k] == s.procs[pid].worker.got[k]
  }

  lemma ClaimReads(s: State, pid: Pid, name: Name)
    requires Holds(s, pid) && ReadAs(s, pid)
    ensures ReadAs(ClaimName(s, pid, name), pid)
  {
  }

  /** What any step does to the claimed files and to what the acting worker has read of them. */
  lemma ReadsMove(s: State, a: Action)
    requires LockFits(s) && ReadAs(s, a.pid) && Enabled(s, a)
    ensures ReadAs(Apply(s, a), a.pid)
    ensures Apply(s, a).claimed == s.claimed || s.lock == Some(a.pid)
  {
    if a.Claim? {
      ClaimReads(s, a.pid, a.name);
    }
  }

  lemma StepReads(s: State, a: Action)
    requires LockFits(s) && ReadsFit(s) && Enabled(s, a)
    ensures ReadsFit(Apply(s, a))
  {
    var s' := Apply(s, a);
    Frame(s, a);
    assert ReadAs(s, a.pid);
    ReadsMove(s, a);
    forall p, k | Holds(s', p) && k in s'.procs[p].worker.got
      ensures k in s'.claimed && s'.claimed[k] == s'.procs[p].worker.got[k]
    {
      if p != a.pid {
        assert Holds(s, p) && s.lock == Some(p);
      }
    }
  }

  lemma StepNone(s: State, a: Action)
    requires LockFits(s) && ReadsFit(s) && NoneLost(s) && Enabled(s, a)
    ensures NoneLost(Apply(s, a))
  {
    var s' := Apply(s, a);
    forall k | k in s'.written
      ensures if k in s'.json then s'.json[k] == s'.written[k]
              else if k in s'.claimed then s'.claimed[k] == s'.written[k]
              else k in s'.finished && s'.finished[k] == s'.written[k]
    {
    }
  }

  lemma StepSafe(s: State, a: Action)
    requires Safe(s) && Enabled(s, a)
    ensures Safe(Apply(s, a))
  {
    StepLock(s, a);
    StepReads(s, a);
    StepNone(s, a);
  }

  // ---- no lost wakeup ----------------------------------------------------

  /** A process that will still see to whatever is in the spool. */
  predicate Obliged(s: State, pid: Pid) {
    && pid in s.procs
    && match s.procs[pid]
       case Hook(stage, _, _) => !stage.Gone? && (stage.Waiting? ==> Lapsed(s, stage.worker))
       case Worker(stage) => !stage.Ended?
  }

  predicate Lapsed(s: State, pid: Pid) {
    pid in s.procs && s.procs[pid] == Worker(Ended(Incomplete))
  }

  ghost predicate Awake(s: State) {
    Pending(s) ==> exists p :: Obliged(s, p)
  }

  lemma ObligedStays(s: State, a: Action, p: Pid)
    requires Enabled(s, a) && Obliged(s, p) && p != a.pid
    ensures Obliged(Apply(s, a), p)
  {
    var s' := Apply(s, a);
    Frame(s, a);
    if s.procs[p].Hook? && s.procs[p].hook.Waiting? {
      var w := s.procs[p].hook.worker;
      EndedStays(s, a, w);
    }
  }

  lemma EndedStays(s: State, a: Action, w: Pid)
    requires Enabled(s, a) && Lapsed(s, w)
    ensures Lapsed(Apply(s, a), w)
  {
  }

  lemma HookAwake(s: State, a: Action)
    requires LockFits(s) && Awake(s) && Enabled(s, a) && Pending(Apply(s, a))
    requires a.Write? || a.Probe? || a.Unprobe? || a.Start? || a.Resume?
    ensures exists p :: Obliged(Apply(s, a), p)
  {
    var s' := Apply(s, a);
    match a
    case Write(pid, _, _, _, _) => assert Obliged(s', pid);
    case Probe(pid) => assert Obliged(s', if s.lock.Some? then s.lock.value else pid);
    case Unprobe(pid) => assert Obliged(s', pid);
    case Start(pid, child) => assert Obliged(s', child);
    case Resume(pid) => SomeoneStays(s, a);
  }

  lemma WorkerAwake(s: State, a: Action)
    requires LockFits(s) && Awake(s) && Enabled(s, a) && Pending(Apply(s, a))
    requires a.Ask? || a.List? || a.Claim? || a.Dispose? || a.Release? || a.Rescan? || a.Abandon?
    ensures exists p :: Obliged(Apply(s, a), p)
  {
    var s' := Apply(s, a);
    if a.Ask? {
      assert Obliged(s', if s.lock.Some? then s.lock.value else a.pid);
    } else if a.Abandon? {
      assert Obliged(s', a.parent);
    } else {
      assert Obliged(s', a.pid);
    }
  }

  /** Every step but the crash of a worker nobody waits for keeps someone obliged. */
  lemma StepAwake(s: State, a: Action)
    requires LockFits(s) && Awake(s) && Enabled(s, a) && !a.Crash?
    ensures Awake(Apply(s, a))
  {
    if Pending(Apply(s, a)) {
      if a.Write? || a.Probe? || a.Unprobe? || a.Start? || a.Resume? {
        HookAwake(s, a);
      } else {
        WorkerAwake(s, a);
      }
    }
  }

  /** When the acting process was not the only one obliged, or stays so, someone is. */
  lemma SomeoneStays(s: State, a: Action)
    requires Enabled(s, a) && (exists p :: Obliged(s, p)) && (Obliged(s, a.pid) ==> Obliged(Apply(s, a), a.pid))
    ensures exists p :: Obliged(Apply(s, a), p)
  {
    var p :| Obliged(s, p);
    if p != a.pid {
      ObligedStays(s, a, p);
    }
  }
}
