/**
 * Background tasks and the bounded pool that starts them.
 *
 * A task is WAITING when created, RUNNING once started, FINISHED when its body has returned
 * (or thrown) on a worker thread, CANCELED when cancelled. The pool keeps a list of tasks;
 * each timer tick drops the FINISHED and CANCELED ones and starts waiting ones, in list
 * order, until `maxTasks` are running. The worker threads are not modelled: the end of a
 * task's body is the explicit event `Task.Finish`.
 */
module TaskPool {

  datatype State = Waiting | Running | Finished | Canceled

  /** A task the pool keeps across a tick. */
  predicate Live(s: State) { s != Finished && s != Canceled }

  predicate IsWaiting(s: State) { s == Waiting }

  // ---------------------------------------------------------------------------------------
  // The task life cycle on states

  function CancelState(s: State): (t: State)
    ensures t == Canceled
  {
    Canceled
  }

  /** Starting a task: a cancelled task stays cancelled, any other becomes RUNNING. */
  function RunState(s: State): (t: State)
    ensures s == Canceled ==> t == Canceled
    ensures s != Canceled ==> t == Running
  {
    if s == Canceled then Canceled else Running
  }

  /** The end of the body on the worker thread; this overwrites a cancellation made meanwhile. */
  function FinishState(s: State): (t: State)
    ensures t == Finished
  {
    Finished
  }

  function ResetState(s: State): (t: State)
    ensures t == Waiting
  {
    Waiting
  }

  /** Once cancelled, a task never runs: cancelling before the pool starts it wins. */
  lemma CancelBeforeRunWins(s: State)
    ensures RunState(CancelState(s)) == Canceled
    ensures !Live(RunState(CancelState(s)))
  {
  }

  /** A cancellation that arrives while the body runs is lost when the body ends. */
  lemma FinishOverwritesCancel(s: State)
    ensures FinishState(CancelState(RunState(s))) == Finished
  {
  }

  class Task {
    /** What the task is for; the loader's task carries the URL it fetches. */
    const url: string
    var state: State

    constructor(url: string)
      ensures this.url == url && state == Waiting
    {
      this.url := url;
      state := Waiting;
    }

    method Cancel()
      modifies this
      ensures state == CancelState(old(state))
    {
      state := Canceled;
    }

    method Run()
      modifies this
      ensures state == RunState(old(state))
    {
      if state == Canceled {
        return;
      }
      state := Running;
    }

    /** The worker thread has returned from the body, normally or by an exception. */
    method Finish()
      modifies this
      ensures state == FinishState(old(state))
    {
      state := Finished;
    }

    method Reset()
      modifies this
      ensures state == ResetState(old(state))
    {
      state := Waiting;
    }
  }

  // ---------------------------------------------------------------------------------------
  // The tick on a list of states

  function CountOf(ss: seq<State>, s: State): (n: nat)
    ensures n <= |ss|
  {
    if ss == [] then 0 else CountOf(ss[..|ss| - 1], s) + (if ss[|ss| - 1] == s then 1 else 0)
  }

  /** The entries of `xs` whose state in `ss` satisfies `keep`, in order. */
  function Filter<T>(xs: seq<T>, ss: seq<State>, keep: State -> bool): (r: seq<T>)
    requires |xs| == |ss|
    ensures |r| <= |xs|
  {
    if xs == [] then []
    else Filter(xs[..|xs| - 1], ss[..|ss| - 1], keep) + (if keep(ss[|ss| - 1]) then [xs[|xs| - 1]] else [])
  }

  /** The live entries, in order. */
  function Survivors(ss: seq<State>): seq<State> {
    Filter(ss, ss, Live)
  }

  /** How many waiting tasks a tick starts, given `running` running ones and `waiting` waiting ones. */
  function StartCount(running: nat, maxTasks: int, waiting: nat): (n: nat)
    ensures n <= waiting
    ensures running < maxTasks ==> running + n <= maxTasks
    ensures maxTasks <= running ==> n == 0
    ensures n < waiting ==> running + n >= maxTasks
  {
    if maxTasks <= running then 0
    else if waiting <= maxTasks - running then waiting else maxTasks - running
  }

  /** The state of entry `k` once the first `budget` waiting entries have been started. */
  function Started(ss: seq<State>, budget: nat, k: int): State
    requires 0 <= k < |ss|
  {
    if ss[k] == Waiting && CountOf(ss[..k], Waiting) < budget then Running else ss[k]
  }

  /** Starts the first `budget` waiting entries, by their rank among the waiting entries. */
  function Promote(ss: seq<State>, budget: nat): (r: seq<State>)
    ensures |r| == |ss|
    ensures forall k :: 0 <= k < |ss| ==> r[k] == Started(ss, budget, k)
  {
    seq(|ss|, k requires 0 <= k < |ss| => Started(ss, budget, k))
  }

  /** The states of the pool's task list after one tick. */
  function Tick(ss: seq<State>, maxTasks: int): (next: seq<State>)
    ensures |next| <= |ss|
  {
    var live := Survivors(ss);
    Promote(live, StartCount(CountOf(live, Running), maxTasks, CountOf(live, Waiting)))
  }

  // ---------------------------------------------------------------------------------------
  // Properties of the tick

  lemma {:induction false} FilterLength<T>(xs: seq<T>, ss: seq<State>, keep: State -> bool)
    requires |xs| == |ss|
    ensures |Filter(xs, ss, keep)| == |Filter(ss, ss, keep)|
  {
    if xs != [] {
      FilterLength(xs[..|xs| - 1], ss[..|ss| - 1], keep);
    }
  }

  lemma {:induction false} WaitingLength<T>(xs: seq<T>, ss: seq<State>)
    requires |xs| == |ss|
    ensures |Filter(xs, ss, IsWaiting)| == CountOf(ss, Waiting)
  {
    if xs != [] {
      WaitingLength(xs[..|xs| - 1], ss[..|ss| - 1]);
    }
  }

  /** A filtered list holds only entries of the list. */
  lemma {:induction false} FilterWithin<T>(xs: seq<T>, ss: seq<State>, keep: State -> bool)
    requires |xs| == |ss|
    ensures forall x :: x in Filter(xs, ss, keep) ==> x in xs
  {
    if xs != [] {
      FilterWithin(xs[..|xs| - 1], ss[..|ss| - 1], keep);
      assert forall x :: x in xs[..|xs| - 1] ==> x in xs;
    }
  }

  lemma {:induction false} FilterSubset<T>(xs: seq<T>, ss: seq<State>, keep: State -> bool, x: T)
    requires |xs| == |ss|
    requires x in Filter(xs, ss, keep)
    ensures exists k :: 0 <= k < |xs| && xs[k] == x && keep(ss[k])
  {
    var n := |xs|;
    if x in Filter(xs[..n - 1], ss[..n - 1], keep) {
      FilterSubset(xs[..n - 1], ss[..n - 1], keep, x);
      var k :| 0 <= k < n - 1 && xs[..n - 1][k] == x && keep(ss[..n - 1][k]);
      assert xs[k] == x && keep(ss[k]);
    } else {
      assert xs[n - 1] == x && keep(ss[n - 1]);
    }
  }

  predicate Distinct<T(==)>(xs: seq<T>) {
    forall a, b :: 0 <= a < b < |xs| ==> xs[a] != xs[b]
  }

  lemma {:induction false} FilterDistinct<T>(xs: seq<T>, ss: seq<State>, keep: State -> bool)
    requires |xs| == |ss| && Distinct(xs)
    ensures Distinct(Filter(xs, ss, keep))
  {
    var n := |xs|;
    if n > 0 {
      var init := Filter(xs[..n - 1], ss[..n - 1], keep);
      FilterDistinct(xs[..n - 1], ss[..n - 1], keep);
      if keep(ss[n - 1]) && xs[n - 1] in init {
        FilterSubset(xs[..n - 1], ss[..n - 1], keep, xs[n - 1]);
        assert false;
      }
    }
  }

  /** The waiting entry at position `k` is the `CountOf(ss[..k], Waiting)`-th waiting one. */
  lemma {:induction false} WaitingRank<T>(xs: seq<T>, ss: seq<State>, k: int)
    requires |xs| == |ss| && 0 <= k < |ss| && ss[k] == Waiting
    ensures CountOf(ss[..k], Waiting) < |Filter(xs, ss, IsWaiting)|
    ensures Filter(xs, ss, IsWaiting)[CountOf(ss[..k], Waiting)] == xs[k]
  {
    var n := |xs|;
    WaitingLength(xs[..n - 1], ss[..n - 1]);
    if k == n - 1 {
      assert ss[..k] == ss[..n - 1];
    } else {
      assert ss[..n - 1][..k] == ss[..k];
      WaitingRank(xs[..n - 1], ss[..n - 1], k);
    }
  }

  lemma FilterCounts(ss: seq<State>)
    ensures CountOf(Survivors(ss), Running) == CountOf(ss, Running)
    ensures CountOf(Survivors(ss), Waiting) == CountOf(ss, Waiting)
    ensures forall k :: 0 <= k < |Survivors(ss)| ==> Live(Survivors(ss)[k])
  {
    SurvivorsCount(ss, Running);
    SurvivorsCount(ss, Waiting);
    SurvivorsLive(ss);
  }

  /** Dropping the finished and aborted entries keeps every live entry of each state. */
  lemma {:induction false} SurvivorsCount(ss: seq<State>, st: State)
    requires Live(st)
    ensures CountOf(Survivors(ss), st) == CountOf(ss, st)
  {
    if ss != [] {
      var n := |ss|;
      SurvivorsCount(ss[..n - 1], st);
      var init := Survivors(ss[..n - 1]);
      if Live(ss[n - 1]) {
        assert Survivors(ss) == init + [ss[n - 1]];
        assert (init + [ss[n - 1]])[..|init|] == init;
      } else {
        assert Survivors(ss) == init;
      }
    }
  }

  lemma {:induction false} SurvivorsLive(ss: seq<State>)
    ensures forall k :: 0 <= k < |Survivors(ss)| ==> Live(Survivors(ss)[k])
  {
    if ss != [] {
      var n := |ss|;
      SurvivorsLive(ss[..n - 1]);
      var init := Survivors(ss[..n - 1]);
      if Live(ss[n - 1]) {
        assert Survivors(ss) == init + [ss[n - 1]];
      } else {
        assert Survivors(ss) == init;
      }
    }
  }

  lemma PromotePrefix(ss: seq<State>, budget: nat, m: int)
    requires 0 <= m <= |ss|
    ensures Promote(ss, budget)[..m] == Promote(ss[..m], budget)
  {
    forall k | 0 <= k < m ensures Promote(ss, budget)[k] == Promote(ss[..m], budget)[k] {
      assert ss[..m][..k] == ss[..k];
    }
  }

  /** Promotion starts exactly min(budget, waiting) tasks and changes nothing else. */
  lemma {:induction false} PromoteCounts(ss: seq<State>, budget: nat)
    ensures var w := CountOf(ss, Waiting);
            var started := if budget < w then budget else w;
            && CountOf(Promote(ss, budget), Running) == CountOf(ss, Running) + started
            && CountOf(Promote(ss, budget), Waiting) == w - started
  {
    if ss != [] {
      var n := |ss|;
      PromotePrefix(ss, budget, n - 1);
      PromoteCounts(ss[..n - 1], budget);
      assert ss[..n - 1] == ss[..n - 1];
    }
  }

  lemma PromoteNothing(ss: seq<State>)
    ensures Promote(ss, 0) == ss
  {
  }

  lemma {:induction false} FilterAllKept(ss: seq<State>)
    requires forall k :: 0 <= k < |ss| ==> Live(ss[k])
    ensures Survivors(ss) == ss
  {
    if ss != [] {
      FilterAllKept(ss[..|ss| - 1]);
      assert ss[..|ss| - 1] + [ss[|ss| - 1]] == ss;
    }
  }

  /**
   * A tick leaves only live tasks, starts exactly `StartCount` of them, and never lifts the
   * number of running tasks above `maxTasks` unless it was already above.
   */
  lemma TickCounts(ss: seq<State>, maxTasks: int)
    ensures forall k :: 0 <= k < |Tick(ss, maxTasks)| ==> Live(Tick(ss, maxTasks)[k])
    ensures |Tick(ss, maxTasks)| == |Survivors(ss)|
    ensures var r := CountOf(ss, Running);
            var n := StartCount(r, maxTasks, CountOf(ss, Waiting));
            && CountOf(Tick(ss, maxTasks), Running) == r + n
            && CountOf(Tick(ss, maxTasks), Waiting) == CountOf(ss, Waiting) - n
            && (CountOf(Tick(ss, maxTasks), Running) <= maxTasks || n == 0)
  {
    var live := Survivors(ss);
    FilterCounts(ss);
    var n := StartCount(CountOf(live, Running), maxTasks, CountOf(live, Waiting));
    PromoteCounts(live, n);
  }

  /** With no event in between, a second tick changes nothing. */
  lemma TickIdempotent(ss: seq<State>, maxTasks: int)
    ensures Tick(Tick(ss, maxTasks), maxTasks) == Tick(ss, maxTasks)
  {
    var t := Tick(ss, maxTasks);
    TickCounts(ss, maxTasks);
    FilterAllKept(t);
    PromoteNothing(t);
  }

  // ---------------------------------------------------------------------------------------
  // The pool

  const DefaultMaxTasks: int := 16

  /** The current states of the given tasks. */
  function Snapshot(ts: seq<Task>): (ss: seq<State>)
    reads ts
    ensures |ss| == |ts|
  {
    seq(|ts|, k reads ts requires 0 <= k < |ts| => ts[k].state)
  }

  class Pool {
    var maxTasks: int
    var tasks: seq<Task>

    /** No task is listed twice. */
    predicate Valid()
      reads this
    {
      Distinct(tasks)
    }

    constructor(maxTasks: int)
      ensures Valid() && this.maxTasks == maxTasks && tasks == []
    {
      this.maxTasks := maxTasks;
      tasks := [];
    }

    /** A task already listed, or no longer waiting, is ignored. */
    method Add(t: Task)
      requires Valid()
      modifies this
      ensures Valid() && maxTasks == old(maxTasks)
      ensures old(t in tasks || t.state != Waiting) ==> tasks == old(tasks)
      ensures !old(t in tasks || t.state != Waiting) ==> tasks == old(tasks) + [t]
    {
      if t in tasks || t.state != Waiting {
        return;
      }
      tasks := tasks + [t];
    }

    method Clear()
      modifies this
      ensures Valid() && tasks == [] && maxTasks == old(maxTasks)
    {
      tasks := [];
    }

    /**
     * One timer tick: drop finished and cancelled tasks, then start waiting ones in list order
     * while fewer than `maxTasks` run. The new task list is the old one filtered, and its
     * states are `Tick` of the old states.
     */
    method Process()
      requires Valid()
      modifies this, set t | t in tasks
      ensures Valid() && maxTasks == old(maxTasks)
      ensures tasks == Filter(old(tasks), old(Snapshot(tasks)), Live)
      ensures Snapshot(tasks) == Tick(old(Snapshot(tasks)), maxTasks)
      ensures forall t :: t in old(tasks) && t !in tasks ==> t.state == old(t.state)
    {
      if |tasks| == 0 {
        return;
      }
      var snapshot := tasks;
      ghost var ss := Snapshot(snapshot);
      var kept, waiting, runningCount := Classify(snapshot);
      tasks := kept;
      Classified(snapshot, ss);
      KeptSnapshot(snapshot);
      assert forall t :: t in waiting ==> t in old(tasks);
      WaitingOfKept(snapshot, ss);
      FilterWithin(kept, Survivors(ss), IsWaiting);
      StartWaiting(kept, waiting, Survivors(ss), runningCount, maxTasks);
    }
  }

  /**
   * The first pass of a tick over a snapshot of the list: the tasks to keep, the waiting ones
   * and the number of running ones.
   */
  method Classify(snapshot: seq<Task>) returns (kept: seq<Task>, waiting: seq<Task>, runningCount: nat)
    ensures kept == Filter(snapshot, Snapshot(snapshot), Live)
    ensures waiting == Filter(snapshot, Snapshot(snapshot), IsWaiting)
    ensures runningCount == CountOf(Snapshot(snapshot), Running)
  {
    ghost var ss := Snapshot(snapshot);
    runningCount := 0;
    waiting := [];
    kept := [];
    var j := 0;
    while j < |snapshot|
      invariant 0 <= j <= |snapshot|
      invariant kept == Filter(snapshot[..j], ss[..j], Live)
      invariant waiting == Filter(snapshot[..j], ss[..j], IsWaiting)
      invariant runningCount == CountOf(ss[..j], Running)
    {
      var task := snapshot[j];
      assert snapshot[..j + 1][..j] == snapshot[..j] && ss[..j + 1][..j] == ss[..j];
      if task.state == Finished || task.state == Canceled {
        // removed from the list
      } else if task.state == Running {
        kept := kept + [task];
        runningCount := runningCount + 1;
      } else if task.state == Waiting {
        kept := kept + [task];
        waiting := waiting + [task];
      }
      j := j + 1;
    }
    assert snapshot[..j] == snapshot && ss[..j] == ss;
  }

  /**
   * The second pass of a tick: start the waiting tasks in order while fewer than `maxTasks`
   * run. `running` is the number found running by the first pass.
   */
  method StartWaiting(ts: seq<Task>, waiting: seq<Task>, ghost live: seq<State>, running: nat, maxTasks: int)
    requires |ts| == |live| && Distinct(ts) && Snapshot(ts) == live
    requires waiting == Filter(ts, live, IsWaiting)
    modifies waiting
    ensures Snapshot(ts) == Promote(live, StartCount(running, maxTasks, |waiting|))
  {
    var runningCount := running;
    var i := 0;
    while runningCount < maxTasks && i < |waiting|
      invariant 0 <= i <= |waiting|
      invariant runningCount == running + i
      invariant maxTasks <= running ==> i == 0
      invariant running < maxTasks ==> runningCount <= maxTasks
      invariant forall k :: 0 <= k < |ts| ==> ts[k].state == Started(live, i, k)
    {
      var task := waiting[i];
      TaskOfRank(ts, live, i);
      ghost var k0 :| 0 <= k0 < |ts| && ts[k0] == task && live[k0] == Waiting;
      label before:
      task.Run();
      forall k | 0 <= k < |ts| ensures ts[k].state == Started(live, i + 1, k) {
        RankIdentifies(ts, live, i, k);
      }
      assert task.state == Started(live, i + 1, k0);
      RankIdentifies(ts, live, i, k0);
      if task.state == Running {
        runningCount := runningCount + 1;
      }
      i := i + 1;
    }
    assert Snapshot(ts) == Promote(live, i);
  }

  /** Facts about the two lists the first pass of a tick builds. */
  lemma Classified(snapshot: seq<Task>, ss: seq<State>)
    requires |snapshot| == |ss| && Distinct(snapshot)
    ensures var kept := Filter(snapshot, ss, Live);
            var live := Survivors(ss);
            var waiting := Filter(snapshot, ss, IsWaiting);
            && |kept| == |live| && Distinct(kept)
            && Filter(kept, live, IsWaiting) == waiting
            && |waiting| == CountOf(live, Waiting)
            && CountOf(live, Running) == CountOf(ss, Running)
            && CountOf(live, Waiting) == CountOf(ss, Waiting)
            && (forall t :: t in waiting ==> t in snapshot)
  {
    FilterCounts(ss);
    FilterLength(snapshot, ss, Live);
    FilterDistinct(snapshot, ss, Live);
    WaitingOfKept(snapshot, ss);
    WaitingLength(Filter(snapshot, ss, Live), Survivors(ss));
    forall t | t in Filter(snapshot, ss, IsWaiting) ensures t in snapshot {
      FilterSubset(snapshot, ss, IsWaiting, t);
    }
  }

  lemma SnapshotConcat(a: seq<Task>, b: seq<Task>)
    ensures Snapshot(a + b) == Snapshot(a) + Snapshot(b)
  {
  }

  /** The kept tasks carry exactly the surviving states. */
  lemma {:induction false} KeptSnapshot(ts: seq<Task>)
    ensures Snapshot(Filter(ts, Snapshot(ts), Live)) == Survivors(Snapshot(ts))
  {
    if ts != [] {
      var n := |ts|;
      var ss := Snapshot(ts);
      assert Snapshot(ts[..n - 1]) == ss[..n - 1];
      KeptSnapshot(ts[..n - 1]);
      var init := Filter(ts[..n - 1], ss[..n - 1], Live);
      if Live(ss[n - 1]) {
        SnapshotConcat(init, [ts[n - 1]]);
      }
    }
  }

  lemma {:induction false} WaitingOfKept<T>(xs: seq<T>, ss: seq<State>)
    requires |xs| == |ss|
    ensures |Filter(xs, ss, Live)| == |Survivors(ss)|
    ensures Filter(Filter(xs, ss, Live), Survivors(ss), IsWaiting) == Filter(xs, ss, IsWaiting)
  {
    FilterLength(xs, ss, Live);
    if xs != [] {
      var n := |xs|;
      WaitingOfKept(xs[..n - 1], ss[..n - 1]);
      var a := Filter(xs[..n - 1], ss[..n - 1], Live);
      var b := Survivors(ss[..n - 1]);
      FilterLength(xs[..n - 1], ss[..n - 1], Live);
      if Live(ss[n - 1]) {
        var a' := a + [xs[n - 1]];
        var b' := b + [ss[n - 1]];
        assert Filter(xs, ss, Live) == a';
        assert Survivors(ss) == b';
        assert a'[..|a'| - 1] == a && b'[..|b'| - 1] == b;
        assert Filter(a', b', IsWaiting)
            == Filter(a, b, IsWaiting) + (if IsWaiting(ss[n - 1]) then [xs[n - 1]] else []);
      } else {
        assert Filter(xs, ss, Live) == a;
        assert Survivors(ss) == b;
      }
    }
  }

  /** The task of waiting rank `i` sits at a position whose state is waiting with that rank. */
  lemma TaskOfRank(ts: seq<Task>, live: seq<State>, i: int)
    requires |ts| == |live| && 0 <= i < |Filter(ts, live, IsWaiting)|
    ensures exists k :: 0 <= k < |ts| && ts[k] == Filter(ts, live, IsWaiting)[i] && live[k] == Waiting
  {
    FilterSubset(ts, live, IsWaiting, Filter(ts, live, IsWaiting)[i]);
  }

  /** In a list without repeats, the waiting task of rank `i` is found at exactly one position. */
  lemma RankIdentifies(ts: seq<Task>, live: seq<State>, i: int, k: int)
    requires |ts| == |live| && Distinct(ts) && 0 <= k < |ts|
    requires 0 <= i < |Filter(ts, live, IsWaiting)|
    ensures ts[k] == Filter(ts, live, IsWaiting)[i] <==> (live[k] == Waiting && CountOf(live[..k], Waiting) == i)
  {
    var w := Filter(ts, live, IsWaiting);
    FilterDistinct(ts, live, IsWaiting);
    if ts[k] == w[i] {
      FilterSubset(ts, live, IsWaiting, w[i]);
      var k' :| 0 <= k' < |ts| && ts[k'] == w[i] && live[k'] == Waiting;
      assert k' == k;
      WaitingRank(ts, live, k);
    }
    if live[k] == Waiting {
      WaitingRank(ts, live, k);
    }
  }
}
