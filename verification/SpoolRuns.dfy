/** Whole runs of hooks and workers: no lost wakeup, and no record deleted unread. */
module SpoolRuns {
  import opened Wrappers
  import opened Spool

  ghost predicate Init(s: State) {
    s == State(map[], map[], None, map[], map[], map[])
  }

  ghost predicate IsRun(run: seq<State>, actions: seq<Action>) {
    && |run| == |actions| + 1 && Init(run[0])
    && (forall i :: 0 <= i < |actions| ==> Enabled(run[i], actions[i]) && run[i + 1] == Apply(run[i], actions[i]))
  }

  lemma {:induction false} RunSafe(run: seq<State>, actions: seq<Action>, n: nat)
    requires IsRun(run, actions) && n < |run|
    ensures Safe(run[n])
  {
    if n > 0 {
      RunSafe(run, actions, n - 1);
      StepSafe(run[n - 1], actions[n - 1]);
    }
  }

  /** Crashes matter only until the next record is written. */
  ghost predicate CrashFreeSince(actions: seq<Action>, from: nat) {
    && from <= |actions| && (forall i :: from <= i < |actions| ==> !actions[i].Crash?)
    && (from == 0 || (from < |actions| && actions[from].Write?))
  }

  lemma {:induction false} RunAwake(run: seq<State>, actions: seq<Action>, from: nat, n: nat)
    requires IsRun(run, actions) && CrashFreeSince(actions, from) && from < n < |run|
    ensures Awake(run[n])
  {
    RunSafe(run, actions, n - 1);
    if n == from + 1 {
      if actions[from].Write? {
        assert Obliged(run[n], actions[from].pid);
      } else {
        StepAwake(run[0], actions[0]);
      }
    } else {
      RunAwake(run, actions, from, n - 1);
      StepAwake(run[n - 1], actions[n - 1]);
    }
  }

  ghost predicate Quiescent(s: State) {
    forall p :: p in s.procs ==> if s.procs[p].Hook? then s.procs[p].hook.Gone? else s.procs[p].worker.Ended?
  }

  /** No lost wakeup: once every hook and worker has exited, and no worker has crashed since some record
      was written, the spool is empty and the latest record of every key was processed. */
  lemma NoLostWakeup(run: seq<State>, actions: seq<Action>, from: nat, last: State)
    requires IsRun(run, actions) && CrashFreeSince(actions, from)
    requires last == run[|run| - 1] && Quiescent(last)
    ensures last.json == map[] && last.claimed == map[]
    ensures forall k :: k in last.written ==> k in last.finished && last.finished[k] == last.written[k]
  {
    RunSafe(run, actions, |run| - 1);
    if |run| > 1 {
      if from < |run| - 1 {
        RunAwake(run, actions, from, |run| - 1);
      }
      assert forall p :: !Obliged(last, p);
    }
  }

  /** Whatever crashes and whenever, the latest record of every key is still waiting, claimed, or processed. */
  lemma NothingLost(run: seq<State>, actions: seq<Action>, n: nat, k: Key)
    requires IsRun(run, actions) && n < |run| && k in run[n].written
    ensures var s := run[n]; var v := s.written[k];
      || (k in s.json && s.json[k] == v) || (k in s.claimed && s.claimed[k] == v)
        || (k in s.finished && s.finished[k] == v)
  {
    RunSafe(run, actions, n);
  }
}
