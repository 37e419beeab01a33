/** Whole runs of the thread pool: which tasks they run, that they end, and where they end. */
module PoolRuns {
  import opened Sequences
  import opened ThreadPool

  /** `schedule` lists the workers that take the successive steps. */
  ghost predicate Runs(job: Job, s: Pool, schedule: seq<nat>)
    decreases |schedule|
  {
    schedule == [] ||
    (schedule[0] < |s.workers| && Enabled(job, s, schedule[0]) && Runs(job, Next(job, s, schedule[0]), schedule[1..]))
  }

  ghost function After(job: Job, s: Pool, schedule: seq<nat>): Pool
    requires Runs(job, s, schedule)
    decreases |schedule|
  {
    if schedule == [] then s else After(job, Next(job, s, schedule[0]), schedule[1..])
  }

  predicate Stuck(job: Job, s: Pool) {
    forall w :: 0 <= w < |s.workers| ==> !Enabled(job, s, w)
  }

  /** The main thread stores the counters of the next job. */
  function Store(job: Job, s: Pool): Pool {
    s.(todo := job.size, done := job.size, interfaces := 0, ran := [], finished := [])
  }

  // ---------- runs end ----------

  /** How many steps a worker can still take without claiming a further task. */
  function Rank(x: Worker, open: bool): nat {
    match x
    case Waiting => if open then 4 else 1
    case Looping => 3
    case OverDrawn => 2
    case Running(_) => 6
    case Finishing(_) => 5
  }

  function Ranks(workers: seq<Worker>, open: bool): nat {
    if workers == [] then 0 else Rank(workers[0], open) + Ranks(workers[1..], open)
  }

  function Fuel(job: Job, s: Pool): int {
    4 * Unclaimed(s) + Ranks(s.workers, Unclaimed(s) > 0) + (if job.analyzer then job.size - 1 - s.interfaces else 0)
  }

  lemma {:induction false} RanksUpdated(workers: seq<Worker>, w: nat, x: Worker, open: bool)
    requires w < |workers|
    ensures Ranks(workers[w := x], open) == Ranks(workers, open) - Rank(workers[w], open) + Rank(x, open)
  {
    if w > 0 {
      assert workers[w := x][1..] == workers[1..][w - 1 := x];
      RanksUpdated(workers[1..], w - 1, x, open);
    }
  }

  lemma {:induction false} RanksClosed(workers: seq<Worker>)
    ensures Ranks(workers, false) <= Ranks(workers, true)
  {
    if workers != [] {
      RanksClosed(workers[1..]);
    }
  }

  /** Nothing is restored while tasks are left, and the analyzer never registers too many interfaces. */
  lemma Bounds(job: Job, s: Pool)
    requires Inv(job, s)
    ensures job.analyzer ==> s.interfaces <= job.size - 1 || job.size == 0
    ensures forall w :: 0 <= w < |s.workers| && s.workers[w].OverDrawn? ==> s.todo < 0
  {
    forall w | 0 <= w < |s.workers| && s.workers[w].OverDrawn? ensures s.todo < 0 {
      SomeOverDraws(s.workers, w);
    }
  }

  lemma StepBurns(job: Job, s: Pool, w: nat)
    requires Inv(job, s) && w < |s.workers| && Enabled(job, s, w)
    ensures Fuel(job, Next(job, s, w)) < Fuel(job, s)
  {
    hide Inv, Spins;
    Bounds(job, s);
    var t := Next(job, s, w);
    var open := Unclaimed(s) > 0;
    RanksUpdated(s.workers, w, t.workers[w], open);
    RanksClosed(t.workers);
    if s.workers[w].Running? {
      assert s.workers[w := s.workers[w]] == s.workers;
    }
  }

  /** Every reachable state keeps the invariant, and no run is longer than the fuel of its first state. */
  lemma {:induction false} RunKeeps(job: Job, s: Pool, schedule: seq<nat>)
    requires Inv(job, s) && Runs(job, s, schedule)
    ensures Inv(job, After(job, s, schedule))
    ensures |After(job, s, schedule).workers| == |s.workers|
    ensures |schedule| + Fuel(job, After(job, s, schedule)) <= Fuel(job, s)
    decreases |schedule|
  {
    hide Inv, Fuel;
    if schedule != [] {
      StepKeeps(job, s, schedule[0]);
      StepBurns(job, s, schedule[0]);
      RunKeeps(job, Next(job, s, schedule[0]), schedule[1..]);
    }
  }

  lemma FuelIsNatural(job: Job, s: Pool)
    requires Inv(job, s) && job.size >= 1
    ensures Fuel(job, s) >= 0
  {
  }

  // ---------- what a run has done ----------

  /** The output slots written, in the order of the runs. */
  function Slots(job: Job, ran: seq<int>): seq<int> {
    seq(|ran|, k requires 0 <= k < |ran| => Slot(job, ran[k]))
  }

  lemma SlotsOf(job: Job, ran: seq<int>)
    ensures NoDup(ran) ==> NoDup(Slots(job, ran))
    ensures forall k :: k in Slots(job, ran) ==> job.size - 1 - k in ran
  {
    forall k | k in Slots(job, ran) ensures job.size - 1 - k in ran {
      var j :| 0 <= j < |ran| && Slots(job, ran)[j] == k;
      assert ran[j] == job.size - 1 - k;
    }
  }

  /** At every point of a job started with no worker between its over-decrement and its restore: each task has run
      at most once and each slot was written at most once; the counter of unfinished tasks is zero exactly when
      all the tasks are finished; and a bundle is analysed only when all the interfaces before it are registered. */
  lemma EachTaskRunsOnce(job: Job, s: Pool, schedule: seq<nat>)
    requires Started(job, s) && Quiescent(s) && Runs(job, s, schedule)
    ensures var t := After(job, s, schedule);
            && NoDup(t.ran)
            && (forall i :: i in t.ran ==> 0 <= i < job.size)
            && NoDup(Slots(job, t.ran))
            && (forall k :: k in Slots(job, t.ran) ==> 0 <= k < job.size)
            && t.done >= 0
            && (t.done == 0 <==> forall i :: 0 <= i < job.size ==> i in t.finished)
            && (forall i :: i in t.finished ==> i in t.ran)
            && (job.analyzer ==> forall k :: k in Slots(job, t.ran) && k > 0 ==> t.interfaces >= k - 1)
    ensures |schedule| <= Fuel(job, s)
  {
    StartedQuiescent(job, s);
    RunKeeps(job, s, schedule);
    var t := After(job, s, schedule);
    FuelIsNatural(job, t);
    Covers(t.finished, job.size);
    SlotsOf(job, t.ran);
    assert forall i :: i in t.finished ==> i in t.ran;
    assert job.analyzer ==> forall i :: i in t.ran && i != job.size - 1 ==> t.interfaces >= Slot(job, i) - 1;
  }

  /** While a worker spins, the task that registers the interfaces is no longer unclaimed. */
  lemma SpinnerIsServed(job: Job, s: Pool, w: nat)
    requires Inv(job, s) && w < |s.workers| && s.workers[w].Running?
    requires Spins(job, Slot(job, s.workers[w].index), s.interfaces)
    ensures Unclaimed(s) < job.size && job.size - 1 !in s.ran && Holds(s, job.size - 1)
  {
  }

  /** A worker that is not waiting can take a step, or the one it spins on can. */
  lemma BusyWorkerSteps(job: Job, s: Pool, w: nat)
    requires Inv(job, s) && w < |s.workers| && !s.workers[w].Waiting?
    ensures !Stuck(job, s)
  {
    if s.workers[w].Running? && Spins(job, Slot(job, s.workers[w].index), s.interfaces) {
      SpinnerIsServed(job, s, w);
      var v :| 0 <= v < |s.workers| && s.workers[v] == Running(job.size - 1);
      assert Enabled(job, s, v);
    } else {
      assert Enabled(job, s, w);
    }
  }

  /** When all workers wait and nothing is left to claim, the job is done. */
  lemma IdleIsDone(job: Job, s: Pool)
    requires Inv(job, s) && s.todo <= 0 && forall w :: 0 <= w < |s.workers| ==> s.workers[w].Waiting?
    ensures s.done == 0
  {
    NoneOverDraws(s.workers);
    assert forall i :: 0 <= i < job.size ==> i in s.finished;
    Covers(s.finished, job.size);
  }

  /** Some worker can always take a step until the job is done. */
  lemma NeverStuck(job: Job, s: Pool)
    requires Inv(job, s) && s.done > 0 && |s.workers| > 0
    ensures !Stuck(job, s)
  {
    if w :| 0 <= w < |s.workers| && !s.workers[w].Waiting? {
      BusyWorkerSteps(job, s, w);
    } else if s.todo > 0 {
      assert Enabled(job, s, 0);
    } else {
      IdleIsDone(job, s);
      assert false;
    }
  }

  /** A run that cannot go on has run and finished every task exactly once. */
  lemma RunsToCompletion(job: Job, s: Pool, schedule: seq<nat>)
    requires Started(job, s) && Quiescent(s) && |s.workers| > 0
    requires Runs(job, s, schedule) && Stuck(job, After(job, s, schedule))
    ensures var t := After(job, s, schedule);
            t.done == 0 && |t.ran| == job.size && NoDup(t.ran) && forall i :: i in t.ran <==> 0 <= i < job.size
  {
    StartedQuiescent(job, s);
    RunKeeps(job, s, schedule);
    EachTaskRunsOnce(job, s, schedule);
    var t := After(job, s, schedule);
    if t.done > 0 {
      NeverStuck(job, t);
    }
    Covers(t.ran, job.size);
  }

  // ---------- the next job ----------

  /** No schedule ever runs a task that the job does not have. */
  ghost predicate StaysInRange(job: Job, s: Pool) {
    forall schedule :: Runs(job, s, schedule) ==> forall i :: i in After(job, s, schedule).ran ==> 0 <= i < job.size
  }

  /** A late restore puts one task too many on offer. */
  lemma LateRestoreOverruns(job: Job, s: Pool, w: nat)
    requires Started(job, s) && w < |s.workers| && s.workers[w].OverDrawn?
    ensures Runs(job, s, [w, w, w, w]) && After(job, s, [w, w, w, w]).ran == [job.size]
  {
    var a := Next(job, s, w);
    var b := Next(job, a, w);
    var c := Next(job, b, w);
    var d := Next(job, c, w);
    assert d.ran == [job.size];
    assert Runs(job, d, []);
    assert [w][1..] == [];
    assert Runs(job, c, [w]) && After(job, c, [w]) == d;
    assert [w, w][1..] == [w];
    assert Runs(job, b, [w, w]) && After(job, b, [w, w]) == d;
    assert [w, w, w][1..] == [w, w];
    assert Runs(job, a, [w, w, w]) && After(job, a, [w, w, w]) == d;
    assert [w, w, w, w][1..] == [w, w, w];
  }

  /** A job stays within its tasks exactly when no worker is between its over-decrement and its restore at the
      moment the counters are stored. */
  lemma InRangeIffQuiescent(job: Job, s: Pool)
    requires Started(job, s)
    ensures StaysInRange(job, s) <==> Quiescent(s)
  {
    if Quiescent(s) {
      forall schedule | Runs(job, s, schedule)
        ensures forall i :: i in After(job, s, schedule).ran ==> 0 <= i < job.size
      {
        EachTaskRunsOnce(job, s, schedule);
      }
    } else {
      var w :| 0 <= w < |s.workers| && s.workers[w].OverDrawn?;
      LateRestoreOverruns(job, s, w);
      assert job.size in After(job, s, [w, w, w, w]).ran;
    }
  }

  lemma RunsNowhere(job: Job, s: Pool)
    ensures Runs(job, s, []) && After(job, s, []) == s
  {
  }

  /** One step, and then a run. */
  lemma RunsFrom(job: Job, s: Pool, w: nat, schedule: seq<nat>, end: Pool)
    requires w < |s.workers| && Enabled(job, s, w)
    requires Runs(job, Next(job, s, w), schedule) && After(job, Next(job, s, w), schedule) == end
    ensures Runs(job, s, [w] + schedule) && After(job, s, [w] + schedule) == end
  {
    assert ([w] + schedule)[1..] == schedule;
  }

  /** The main thread waits for the last task only: with two workers and one task, it can store the counters of the
      next job while a worker has still to restore the counter, and then that job overruns. */
  lemma WaitingForDoneIsNotEnough(job: Job)
    requires job.size >= 1
    ensures exists s: Pool, schedule: seq<nat> ::
              var first := Job(1, false);
              && Started(first, s) && Quiescent(s) && Runs(first, s, schedule)
              && After(first, s, schedule).done == 0
              && !StaysInRange(job, Store(job, After(first, s, schedule)))
  {
    hide Runs, After;
    var first := Job(1, false);
    var s := Pool([Waiting, Waiting], 1, 1, 0, [], []);
    var a := Next(first, s, 0);
    var b := Next(first, a, 1);
    var c := Next(first, b, 0);
    var d := Next(first, c, 1);
    var e := Next(first, d, 0);
    var f := Next(first, e, 0);
    var none: seq<nat> := [];
    var l1 := [0] + none;
    var l2 := [0] + l1;
    var l3 := [1] + l2;
    var l4 := [0] + l3;
    var l5 := [1] + l4;
    RunsNowhere(first, f);
    RunsFrom(first, e, 0, none, f);
    RunsFrom(first, d, 0, l1, f);
    RunsFrom(first, c, 1, l2, f);
    RunsFrom(first, b, 0, l3, f);
    RunsFrom(first, a, 1, l4, f);
    RunsFrom(first, s, 0, l5, f);
    var t := Store(job, f);
    assert f.done == 0 && f.workers[1] == OverDrawn && t.workers == f.workers;
    assert Started(job, t) && !Quiescent(t);
    InRangeIffQuiescent(job, t);
  }
}
