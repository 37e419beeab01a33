/** The claim protocol of the thread pool, as the interleaved atomic steps of its workers, and the
    semantic analyzer that spins on top of it. */
module ThreadPool {
  import opened Sequences

  /** Where a worker stands: waiting for work, about to claim, about to undo a claim that went below zero,
      running a task, or about to count it as done. */
  datatype Worker = Waiting | Looping | OverDrawn | Running(index: int) | Finishing(index: int)

  /** A job of `size` tasks; the analyzer's tasks spin on the count of registered interfaces. */
  datatype Job = Job(size: nat, analyzer: bool)

  /** The shared counters, with the history of the tasks that ran and that were counted as done. */
  datatype Pool = Pool(workers: seq<Worker>, todo: int, done: int, interfaces: int, ran: seq<int>, finished: seq<int>)

  /** Tasks are claimed from the last to the first, and run from the first to the last. */
  function Slot(job: Job, index: int): int {
    job.size - index - 1
  }

  /** Task 0 of the analyzer registers the interfaces of all the bundles; task `slot` analyses bundle
      `slot - 1` and spins until the interfaces before that one are registered. */
  predicate Spins(job: Job, slot: int, interfaces: int) {
    job.analyzer && slot != 0 && interfaces < slot - 1
  }

  predicate Registers(job: Job, slot: int, interfaces: int) {
    job.analyzer && slot == 0 && interfaces < job.size - 1
  }

  /** Whether the next atomic step of worker `w` changes anything. */
  predicate Enabled(job: Job, s: Pool, w: nat)
    requires w < |s.workers|
  {
    match s.workers[w]
    case Waiting => s.todo > 0
    case Running(i) => !Spins(job, Slot(job, i), s.interfaces)
    case _ => true
  }

  /** The next atomic step of worker `w`. */
  function Next(job: Job, s: Pool, w: nat): Pool
    requires w < |s.workers| && Enabled(job, s, w)
  {
    match s.workers[w]
    case Waiting => s.(workers := s.workers[w := Looping])
    case Looping =>
      var index := s.todo - 1;
      s.(todo := s.todo - 1, workers := s.workers[w := if index < 0 then OverDrawn else Running(index)])
    case OverDrawn => s.(todo := s.todo + 1, workers := s.workers[w := Waiting])
    case Running(i) =>
      if Registers(job, Slot(job, i), s.interfaces) then s.(interfaces := s.interfaces + 1)
      else s.(ran := s.ran + [i], workers := s.workers[w := Finishing(i)])
    case Finishing(i) => s.(done := s.done - 1, finished := s.finished + [i], workers := s.workers[w := Looping])
  }

  /** The state when the main thread has just stored the counters of a job: no task is held. */
  predicate Started(job: Job, s: Pool) {
    && s.todo == s.done == job.size >= 1
    && s.interfaces == 0 && s.ran == [] && s.finished == []
    && forall w :: 0 <= w < |s.workers| ==> s.workers[w].Waiting? || s.workers[w].Looping? || s.workers[w].OverDrawn?
  }

  /** No worker is between its over-decrement and its restore. */
  predicate Quiescent(s: Pool) {
    forall w :: 0 <= w < |s.workers| ==> !s.workers[w].OverDrawn?
  }

  function OverDraws(workers: seq<Worker>): nat {
    if workers == [] then 0 else OverDraws(workers[1..]) + (if workers[0].OverDrawn? then 1 else 0)
  }

  function Unclaimed(s: Pool): nat {
    if s.todo > 0 then s.todo else 0
  }

  ghost predicate Holds(s: Pool, i: int) {
    exists w :: 0 <= w < |s.workers| && s.workers[w] == Running(i)
  }

  ghost predicate Counts(s: Pool, i: int) {
    exists w :: 0 <= w < |s.workers| && s.workers[w] == Finishing(i)
  }

  /** Every task is unclaimed, held by one worker, about to be counted by one worker, or finished. */
  ghost predicate Inv(job: Job, s: Pool) {
    && 0 <= Unclaimed(s) <= job.size
    && OverDraws(s.workers) == Unclaimed(s) - s.todo
    && NoDup(s.ran) && NoDup(s.finished)
    && s.done == job.size - |s.finished|
    && (forall i :: i in s.ran ==> Unclaimed(s) <= i < job.size && (i in s.finished || Counts(s, i)))
    && (forall i :: i in s.finished ==> i in s.ran)
    && (forall i :: Unclaimed(s) <= i < job.size ==> i in s.ran || Holds(s, i))
    && (forall w :: 0 <= w < |s.workers| && s.workers[w].Running? ==>
          Unclaimed(s) <= s.workers[w].index < job.size && s.workers[w].index !in s.ran)
    && (forall w :: 0 <= w < |s.workers| && s.workers[w].Finishing? ==>
          s.workers[w].index in s.ran && s.workers[w].index !in s.finished)
    && (forall v, w :: 0 <= v < w < |s.workers| ==> !SameTask(s.workers[v], s.workers[w]))
    && (job.analyzer ==> 0 <= s.interfaces <= job.size - 1)
    && (job.analyzer && job.size - 1 in s.ran ==> s.interfaces == job.size - 1)
    && (job.analyzer ==> forall i :: i in s.ran && i != job.size - 1 ==> s.interfaces >= Slot(job, i) - 1)
  }

  ghost predicate SameTask(a: Worker, b: Worker) {
    (a.Running? || a.Finishing?) && a == b
  }

  // ---------- every step keeps the invariant ----------

  lemma {:induction false} OverDrawsUpdated(workers: seq<Worker>, w: nat, x: Worker)
    requires w < |workers|
    ensures OverDraws(workers[w := x]) ==
            OverDraws(workers) - (if workers[w].OverDrawn? then 1 else 0) + (if x.OverDrawn? then 1 else 0)
  {
    if w > 0 {
      assert workers[w := x][1..] == workers[1..][w - 1 := x];
      OverDrawsUpdated(workers[1..], w - 1, x);
    }
  }

  lemma {:induction false} SomeOverDraws(workers: seq<Worker>, w: nat)
    requires w < |workers| && workers[w].OverDrawn?
    ensures OverDraws(workers) > 0
  {
    if w > 0 {
      SomeOverDraws(workers[1..], w - 1);
    }
  }

  lemma {:induction false} NoneOverDraws(workers: seq<Worker>)
    requires forall w :: 0 <= w < |workers| ==> !workers[w].OverDrawn?
    ensures OverDraws(workers) == 0
  {
    if workers != [] {
      NoneOverDraws(workers[1..]);
    }
  }

  lemma StartedQuiescent(job: Job, s: Pool)
    requires Started(job, s) && Quiescent(s)
    ensures Inv(job, s)
  {
    NoneOverDraws(s.workers);
  }

  /** Tasks held or counted by the other workers stay so. */
  lemma OthersKeep(s: Pool, t: Pool, w: nat)
    requires w < |s.workers| && |t.workers| == |s.workers|
    requires forall v :: 0 <= v < |s.workers| && v != w ==> t.workers[v] == s.workers[v]
    ensures forall i :: Holds(s, i) && s.workers[w] != Running(i) ==> Holds(t, i)
    ensures forall i :: Counts(s, i) && s.workers[w] != Finishing(i) ==> Counts(t, i)
  {
  }

  lemma WakeKeeps(job: Job, s: Pool, w: nat)
    requires Inv(job, s) && w < |s.workers| && Enabled(job, s, w) && s.workers[w].Waiting?
    ensures Inv(job, Next(job, s, w))
  {
    OverDrawsUpdated(s.workers, w, Looping);
    OthersKeep(s, Next(job, s, w), w);
  }

  lemma ClaimKeeps(job: Job, s: Pool, w: nat)
    requires Inv(job, s) && w < |s.workers| && s.workers[w].Looping?
    ensures Inv(job, Next(job, s, w))
  {
    var t := Next(job, s, w);
    OverDrawsUpdated(s.workers, w, t.workers[w]);
    OthersKeep(s, t, w);
    if s.todo > 0 {
      assert t.workers[w] == Running(s.todo - 1) && Holds(t, s.todo - 1);
    }
  }

  lemma RestoreKeeps(job: Job, s: Pool, w: nat)
    requires Inv(job, s) && w < |s.workers| && s.workers[w].OverDrawn?
    ensures Inv(job, Next(job, s, w)) && s.todo < 0
  {
    SomeOverDraws(s.workers, w);
    OverDrawsUpdated(s.workers, w, Waiting);
    OthersKeep(s, Next(job, s, w), w);
  }

  lemma RegisterKeeps(job: Job, s: Pool, w: nat)
    requires Inv(job, s) && w < |s.workers| && s.workers[w].Running?
    requires Registers(job, Slot(job, s.workers[w].index), s.interfaces)
    ensures Inv(job, Next(job, s, w))
  {
    var t := Next(job, s, w);
    assert t.workers == s.workers;
    assert forall i :: Holds(s, i) ==> Holds(t, i);
    assert forall i :: Counts(s, i) ==> Counts(t, i);
  }

  lemma RunKeeps(job: Job, s: Pool, w: nat)
    requires Inv(job, s) && w < |s.workers| && Enabled(job, s, w) && s.workers[w].Running?
    requires !Registers(job, Slot(job, s.workers[w].index), s.interfaces)
    ensures Inv(job, Next(job, s, w))
  {
    hide OverDraws;
    var i := s.workers[w].index;
    var t := Next(job, s, w);
    OverDrawsUpdated(s.workers, w, Finishing(i));
    OthersKeep(s, t, w);
    assert t.workers[w] == Finishing(i) && Counts(t, i);
  }

  lemma FinishKeeps(job: Job, s: Pool, w: nat)
    requires Inv(job, s) && w < |s.workers| && s.workers[w].Finishing?
    ensures Inv(job, Next(job, s, w))
  {
    OverDrawsUpdated(s.workers, w, Looping);
    OthersKeep(s, Next(job, s, w), w);
  }

  lemma StepKeeps(job: Job, s: Pool, w: nat)
    requires Inv(job, s) && w < |s.workers| && Enabled(job, s, w)
    ensures Inv(job, Next(job, s, w))
  {
    hide Inv;
    match s.workers[w]
    case Waiting => WakeKeeps(job, s, w);
    case Looping => ClaimKeeps(job, s, w);
    case OverDrawn => RestoreKeeps(job, s, w);
    case Running(i) =>
      if Registers(job, Slot(job, i), s.interfaces) {
        RegisterKeeps(job, s, w);
      } else {
        RunKeeps(job, s, w);
      }
    case Finishing(_) => FinishKeeps(job, s, w);
  }
}
