/**
 The thread pool (src/core/thread_pool.cpp) as a protocol of atomic steps: what a thread does while it
 holds the lock is one step, and so is each access to the flag or the condition variable outside it.
 */
module ThreadPool {

  type Task = nat

  /** `Awake`: started, woken or done with a task, and about to take the lock and test the wait condition. */
  datatype Worker = Awake | Asleep | Busy(task: Task) | Exited

  /** Where `shutdown` is: not called, flag stored, joining worker `next`, all joined. */
  datatype Stage = Open | FlagSet | Joining(next: nat) | Joined

  /** `admitted`: tasks past the flag test of `enqueue` and not yet pushed; `notifies`: pushes not yet notified. */
  datatype Pool = Pool(
    workers: seq<Worker>, queue: seq<Task>, stage: Stage, admitted: multiset<Task>, notifies: nat)

  function Start(n: nat): Pool {
    Pool(seq(n, _ => Awake), [], Open, multiset{}, 0)
  }

  datatype Step =
    | Admit(task: Task)      // enqueue: the flag is not set
    | Reject(task: Task)     // enqueue: the flag is set, an exception is thrown
    | Push(task: Task)       // enqueue: push under the lock
    | NotifyOne(w: nat)      // enqueue: notify_one wakes worker w
    | NotifyNobody           // enqueue: notify_one finds nobody asleep
    | Spurious(w: nat)       // the condition variable wakes w for no reason
    | Sleep(w: nat)          // the wait condition is false
    | Take(w: nat)           // the wait condition is true: pop the front task
    | Exit(w: nat)           // shutting down and nothing left
    | Finish(w: nat)         // the task has returned or thrown
    | SetFlag                // shutdown: store the flag under the lock
    | NotifyAll              // shutdown: wake everybody
    | Join                   // shutdown: join the next worker

  function Flag(s: Pool): bool {
    s.stage != Open
  }

  predicate IsAt(s: Pool, w: nat, state: Worker) {
    w < |s.workers| && s.workers[w] == state
  }

  predicate Enabled(s: Pool, step: Step) {
    match step
    case Admit(_) => !Flag(s)
    case Reject(_) => Flag(s)
    case Push(task) => task in s.admitted
    case NotifyOne(w) => s.notifies > 0 && IsAt(s, w, Asleep)
    case NotifyNobody => s.notifies > 0 && Asleep !in s.workers
    case Spurious(w) => IsAt(s, w, Asleep)
    case Sleep(w) => IsAt(s, w, Awake) && !Flag(s) && s.queue == []
    case Take(w) => IsAt(s, w, Awake) && s.queue != []
    case Exit(w) => IsAt(s, w, Awake) && Flag(s) && s.queue == []
    case Finish(w) => w < |s.workers| && s.workers[w].Busy?
    case SetFlag => s.stage == Open
    case NotifyAll => s.stage == FlagSet
    case Join => s.stage.Joining? && IsAt(s, s.stage.next, Exited)
  }

  function Move(s: Pool, w: nat, state: Worker): Pool
    requires w < |s.workers|
  {
    s.(workers := s.workers[w := state])
  }

  function Wake(workers: seq<Worker>): (r: seq<Worker>)
    ensures |r| == |workers|
  {
    seq(|workers|, i requires 0 <= i < |workers| => if workers[i] == Asleep then Awake else workers[i])
  }

  function Next(s: Pool, step: Step): Pool
    requires Enabled(s, step)
  {
    match step
    case Admit(task) => s.(admitted := s.admitted + multiset{task})
    case Reject(_) => s
    case Push(task) =>
      s.(queue := s.queue + [task], admitted := s.admitted - multiset{task}, notifies := s.notifies + 1)
    case NotifyOne(w) => Move(s, w, Awake).(notifies := s.notifies - 1)
    case NotifyNobody => s.(notifies := s.notifies - 1)
    case Spurious(w) => Move(s, w, Awake)
    case Sleep(w) => Move(s, w, Asleep)
    case Take(w) => Move(s, w, Busy(s.queue[0])).(queue := s.queue[1..])
    case Exit(w) => Move(s, w, Exited)
    case Finish(w) => Move(s, w, Awake)
    case SetFlag => s.(stage := FlagSet)
    case NotifyAll => s.(workers := Wake(s.workers), stage := Joining(0))
    case Join => s.(stage := if s.stage.next + 1 == |s.workers| then Joined else Joining(s.stage.next + 1))
  }

  // ---------------------------------------------------------------------------------------------
  // Runs
  // ---------------------------------------------------------------------------------------------

  ghost predicate Legal(n: nat, run: seq<Step>)
    decreases |run|, 0
  {
    run == [] ||
    (Legal(n, run[..|run| - 1]) && Enabled(After(n, run[..|run| - 1]), run[|run| - 1]))
  }

  ghost function After(n: nat, run: seq<Step>): Pool
    requires Legal(n, run)
    decreases |run|, 1
  {
    if run == [] then Start(n) else Next(After(n, run[..|run| - 1]), run[|run| - 1])
  }

  /** The tasks pushed in a run, in order. */
  function PushLog(run: seq<Step>): seq<Task> {
    if run == [] then []
    else
      var step := run[|run| - 1];
      PushLog(run[..|run| - 1]) + if step.Push? then [step.task] else []
  }

  /** The tasks taken off the queue, in order. */
  ghost function TakeLog(n: nat, run: seq<Step>): seq<Task>
    requires Legal(n, run)
  {
    if run == [] then []
    else
      var past, step := run[..|run| - 1], run[|run| - 1];
      TakeLog(n, past) + if step.Take? then [After(n, past).queue[0]] else []
  }

  /** The tasks whose execution has ended. */
  ghost function FinishLog(n: nat, run: seq<Step>): seq<Task>
    requires Legal(n, run)
  {
    if run == [] then []
    else
      var past, step := run[..|run| - 1], run[|run| - 1];
      FinishLog(n, past) + if step.Finish? then [After(n, past).workers[step.w].task] else []
  }

  // ---------------------------------------------------------------------------------------------
  // The invariant
  // ---------------------------------------------------------------------------------------------

  predicate IsActive(w: Worker) {
    w.Awake? || w.Busy?
  }

  /** A waiting task has a worker on its way or a wakeup under way, unless every worker has left. */
  ghost predicate NoLostWakeup(s: Pool) {
    s.queue != [] ==>
      || s.notifies > 0
      || (exists w :: 0 <= w < |s.workers| && IsActive(s.workers[w]))
      || (forall w :: 0 <= w < |s.workers| ==> s.workers[w] == Exited)
  }

  /** Who can have left, and who can be asleep, at each stage of `shutdown`. */
  ghost predicate Staffed(s: Pool) {
    && s.workers != []
    && (!Flag(s) ==> Exited !in s.workers)
    && (s.stage.Joining? || s.stage.Joined? ==> Asleep !in s.workers)
    && (s.stage.Joining? ==> s.stage.next < |s.workers| && forall w :: 0 <= w < s.stage.next ==> s.workers[w] == Exited)
    && (s.stage.Joined? ==> forall w :: 0 <= w < |s.workers| ==> s.workers[w] == Exited)
  }

  ghost predicate Inv(s: Pool) {
    Staffed(s) && NoLostWakeup(s)
  }

  lemma StepKeepsStaffed(s: Pool, step: Step)
    requires Staffed(s) && Enabled(s, step)
    ensures Staffed(Next(s, step))
  {
  }

  /** A step that sets a worker to `Awake` or `Busy`, or changes nobody. */
  lemma ActiveWorker(s: Pool, step: Step, w: nat)
    requires Enabled(s, step) && (step == NotifyOne(w) || step == Take(w) || step == Finish(w) || step == Spurious(w))
    ensures NoLostWakeup(Next(s, step))
  {
    assert IsActive(Next(s, step).workers[w]);
  }

  lemma NobodyToNotify(s: Pool)
    requires Staffed(s) && Enabled(s, NotifyNobody)
    ensures NoLostWakeup(Next(s, NotifyNobody))
  {
    if forall w :: 0 <= w < |s.workers| ==> !IsActive(s.workers[w]) {
      forall w | 0 <= w < |s.workers| ensures s.workers[w] == Exited {
        assert s.workers[w] in s.workers;
      }
    }
  }

  lemma WakingLosesNone(s: Pool)
    requires NoLostWakeup(s) && Enabled(s, NotifyAll)
    ensures NoLostWakeup(Next(s, NotifyAll))
  {
    var t := Next(s, NotifyAll);
    forall w | 0 <= w < |s.workers| && IsActive(s.workers[w]) ensures IsActive(t.workers[w]) {
    }
  }

  /** Every step of every thread keeps the invariant. */
  lemma StepKeepsInv(s: Pool, step: Step)
    requires Inv(s) && Enabled(s, step)
    ensures Inv(Next(s, step))
  {
    StepKeepsStaffed(s, step);
    hide Staffed, Wake;
    match step
    case NotifyOne(w) => ActiveWorker(s, step, w);
    case Take(w) => ActiveWorker(s, step, w);
    case Finish(w) => ActiveWorker(s, step, w);
    case Spurious(w) => ActiveWorker(s, step, w);
    case NotifyNobody => NobodyToNotify(s);
    case NotifyAll => WakingLosesNone(s);
    case _ =>
  }

  lemma {:induction false} ReachableInv(n: nat, run: seq<Step>)
    requires n > 0 && Legal(n, run)
    ensures Inv(After(n, run)) && |After(n, run).workers| == n
  {
    if run != [] {
      ReachableInv(n, run[..|run| - 1]);
      StepKeepsInv(After(n, run[..|run| - 1]), run[|run| - 1]);
    }
  }

  // ---------------------------------------------------------------------------------------------
  // Order and conservation
  // ---------------------------------------------------------------------------------------------

  lemma Reassociate(taken: seq<Task>, queue: seq<Task>, push: seq<Task>, take: seq<Task>, rest: seq<Task>)
    requires queue + push == take + rest
    ensures taken + queue + push == taken + take + rest
  {
    assert taken + queue + push == taken + (queue + push);
  }

  lemma StepQueue(s: Pool, step: Step)
    requires Enabled(s, step)
    ensures s.queue + (if step.Push? then [step.task] else []) ==
            (if step.Take? then [s.queue[0]] else []) + Next(s, step).queue
  {
  }

  /** First in, first out, each once: the tasks taken so far followed by the queue are the tasks pushed. */
  lemma {:induction false} TakenInPushOrder(n: nat, run: seq<Step>)
    requires Legal(n, run)
    ensures PushLog(run) == TakeLog(n, run) + After(n, run).queue
  {
    if run != [] {
      var past, step := run[..|run| - 1], run[|run| - 1];
      TakeLogStep(n, run);
      TakenInPushOrder(n, past);
      StepQueue(After(n, past), step);
      var push: seq<Task> := if step.Push? then [step.task] else [];
      var take: seq<Task> := if step.Take? then [After(n, past).queue[0]] else [];
      hide *;
      Reassociate(TakeLog(n, past), After(n, past).queue, push, take, After(n, run).queue);
    }
  }

  function TaskOf(w: Worker): multiset<Task> {
    if w.Busy? then multiset{w.task} else multiset{}
  }

  /** The tasks being executed. */
  function Executing(workers: seq<Worker>): multiset<Task> {
    if workers == [] then multiset{}
    else Executing(workers[..|workers| - 1]) + TaskOf(workers[|workers| - 1])
  }

  lemma {:induction false} ExecutingUpdate(workers: seq<Worker>, w: nat, state: Worker)
    requires w < |workers|
    ensures Executing(workers[w := state]) + TaskOf(workers[w]) == Executing(workers) + TaskOf(state)
  {
    hide TaskOf;
    var init, last := workers[..|workers| - 1], workers[|workers| - 1];
    var changed := workers[w := state];
    if w < |workers| - 1 {
      ExecutingUpdate(init, w, state);
      assert changed[..|workers| - 1] == init[w := state];
      assert Executing(init[w := state]) + TaskOf(last) + TaskOf(workers[w]) ==
             Executing(init[w := state]) + TaskOf(workers[w]) + TaskOf(last);
    } else {
      assert changed[..|workers| - 1] == init;
    }
  }

  lemma {:induction false} ExecutingNone(workers: seq<Worker>)
    requires forall w :: 0 <= w < |workers| ==> !workers[w].Busy?
    ensures Executing(workers) == multiset{}
  {
    if workers != [] {
      ExecutingNone(workers[..|workers| - 1]);
    }
  }

  lemma {:induction false} ExecutingWake(workers: seq<Worker>)
    ensures Executing(Wake(workers)) == Executing(workers)
  {
    if workers != [] {
      var init := workers[..|workers| - 1];
      ExecutingWake(init);
      assert Wake(workers)[..|workers| - 1] == Wake(init);
      hide Wake;
    }
  }

  lemma AddNothing(tasks: multiset<Task>)
    ensures tasks + multiset{} == tasks
  {
  }

  lemma TakeConserves(s: Pool, w: nat)
    requires Enabled(s, Take(w))
    ensures Executing(Next(s, Take(w)).workers) == Executing(s.workers) + multiset{s.queue[0]}
  {
    hide Executing;
    ExecutingUpdate(s.workers, w, Busy(s.queue[0]));
  }

  lemma FinishConserves(s: Pool, w: nat)
    requires Enabled(s, Finish(w))
    ensures Executing(Next(s, Finish(w)).workers) + multiset{s.workers[w].task} == Executing(s.workers)
  {
    hide Executing;
    ExecutingUpdate(s.workers, w, Awake);
  }

  /** A worker that is not executing a task goes to sleep, wakes up or leaves. */
  lemma IdleConserves(s: Pool, w: nat, state: Worker)
    requires w < |s.workers| && !s.workers[w].Busy? && !state.Busy?
    ensures Executing(Move(s, w, state).workers) == Executing(s.workers)
  {
    hide Executing;
    ExecutingUpdate(s.workers, w, state);
    AddNothing(Executing(s.workers));
    AddNothing(Executing(Move(s, w, state).workers));
  }

  lemma StepConserves(s: Pool, step: Step)
    requires Enabled(s, step)
    ensures
      var t := Next(s, step);
      Executing(t.workers) + (if step.Finish? then multiset{s.workers[step.w].task} else multiset{}) ==
      Executing(s.workers) + (if step.Take? then multiset{s.queue[0]} else multiset{})
  {
    hide Executing, Wake, Move;
    AddNothing(Executing(s.workers));
    AddNothing(Executing(Next(s, step).workers));
    match step
    case NotifyOne(w) => IdleConserves(s, w, Awake);
    case Spurious(w) => IdleConserves(s, w, Awake);
    case Sleep(w) => IdleConserves(s, w, Asleep);
    case Exit(w) => IdleConserves(s, w, Exited);
    case Take(w) => TakeConserves(s, w);
    case Finish(w) => FinishConserves(s, w);
    case NotifyAll => ExecutingWake(s.workers);
    case _ =>
  }

  lemma TakeLogStep(n: nat, run: seq<Step>)
    requires run != [] && Legal(n, run)
    ensures
      var past, step := run[..|run| - 1], run[|run| - 1];
      && Legal(n, past) && Enabled(After(n, past), step) && After(n, run) == Next(After(n, past), step)
      && TakeLog(n, run) == TakeLog(n, past) + (if step.Take? then [After(n, past).queue[0]] else [])
      && FinishLog(n, run) == FinishLog(n, past) + (if step.Finish? then [After(n, past).workers[step.w].task] else [])
      && PushLog(run) == PushLog(past) + (if step.Push? then [step.task] else [])
  {
    hide Next;
  }

  lemma Balance(taken: multiset<Task>, finished: multiset<Task>, before: multiset<Task>, after: multiset<Task>,
                take: multiset<Task>, finish: multiset<Task>)
    requires taken == finished + before && after + finish == before + take
    ensures taken + take == finished + finish + after
  {
    forall t ensures (taken + take)[t] == (finished + finish + after)[t] {
      assert (after + finish)[t] == (before + take)[t];
    }
  }

  /** No task is lost or run twice: every task taken has finished or is being executed by one worker. */
  lemma {:induction false} TakenAreFinishedOrExecuting(n: nat, run: seq<Step>)
    requires Legal(n, run)
    ensures multiset(TakeLog(n, run)) == multiset(FinishLog(n, run)) + Executing(After(n, run).workers)
  {
    if run == [] {
      ExecutingNone(Start(n).workers);
    } else {
      var past, step := run[..|run| - 1], run[|run| - 1];
      TakeLogStep(n, run);
      TakenAreFinishedOrExecuting(n, past);
      var s := After(n, past);
      StepConserves(s, step);
      var take: seq<Task> := if step.Take? then [s.queue[0]] else [];
      var finish: seq<Task> := if step.Finish? then [s.workers[step.w].task] else [];
      hide *;
      Balance(multiset(TakeLog(n, past)), multiset(FinishLog(n, past)), Executing(s.workers),
              Executing(After(n, run).workers), multiset(take), multiset(finish));
    }
  }

  // ---------------------------------------------------------------------------------------------
  // Draining
  // ---------------------------------------------------------------------------------------------

  lemma LegalPrefix(n: nat, run: seq<Step>, k: nat)
    requires Legal(n, run) && k <= |run|
    ensures Legal(n, run[..k])
    decreases |run|
  {
    if k < |run| {
      LegalPrefix(n, run[..|run| - 1], k);
      assert run[..|run| - 1][..k] == run[..k];
    } else {
      assert run[..k] == run;
    }
  }

  /** Worker `w` has not left after the first `k` steps. */
  ghost predicate StaysFor(n: nat, run: seq<Step>, k: nat, w: nat) {
    k <= |run| && Legal(n, run[..k]) && w < |After(n, run[..k]).workers| && After(n, run[..k]).workers[w] != Exited
  }

  /** A worker that leaves has first taken everything pushed while it was there. */
  lemma {:induction false} LeavingMeansDrained(n: nat, run: seq<Step>, k: nat, w: nat)
    requires Legal(n, run) && StaysFor(n, run, k, w) && IsAt(After(n, run), w, Exited)
    ensures PushLog(run[..k]) <= TakeLog(n, run)
  {
    assert run[..|run|] == run;
    if k < |run| {
      var past, step := run[..|run| - 1], run[|run| - 1];
      assert past[..k] == run[..k];
      TakeLogStep(n, run);
      hide Legal, After, TakeLog, PushLog;
      if IsAt(After(n, past), w, Exited) {
        assert StaysFor(n, past, k, w);
        LeavingMeansDrained(n, past, k, w);
      } else {
        OnlyExitLeaves(After(n, past), step, w);
        TakenInPushOrder(n, past);
        assert TakeLog(n, past) + [] == TakeLog(n, past);
        PushLogGrows(past, k);
      }
    }
  }

  lemma OnlyExitLeaves(s: Pool, step: Step, w: nat)
    requires Enabled(s, step) && !IsAt(s, w, Exited) && IsAt(Next(s, step), w, Exited)
    ensures step == Exit(w)
  {
  }

  ghost predicate AllGone(s: Pool) {
    forall w :: 0 <= w < |s.workers| ==> s.workers[w] == Exited
  }

  lemma GoneForGood(s: Pool, step: Step)
    requires AllGone(s) && Enabled(s, step)
    ensures AllGone(Next(s, step)) && !step.Take?
  {
  }

  /** Once all workers have left, nothing is taken any more. */
  lemma {:induction false} NobodyTakes(n: nat, run: seq<Step>, k: nat)
    requires Legal(n, run) && k <= |run| && Legal(n, run[..k]) && AllGone(After(n, run[..k]))
    ensures AllGone(After(n, run)) && TakeLog(n, run) == TakeLog(n, run[..k])
  {
    if k == |run| {
      assert run[..k] == run;
    } else {
      var past, step := run[..|run| - 1], run[|run| - 1];
      assert past[..k] == run[..k];
      TakeLogStep(n, run);
      hide *;
      NobodyTakes(n, past, k);
      GoneForGood(After(n, past), step);
      assert TakeLog(n, past) + [] == TakeLog(n, past);
    }
  }

  lemma {:induction false} PushLogGrows(run: seq<Step>, k: nat)
    requires k <= |run|
    ensures PushLog(run[..k]) <= PushLog(run)
  {
    if k < |run| {
      PushLogGrows(run[..|run| - 1], k);
      assert run[..|run| - 1][..k] == run[..k];
    } else {
      assert run[..k] == run;
    }
  }

  /**
   The fate of every push: when `shutdown` has joined all workers, the task pushed by step `k` -- before
   or after the flag was set -- has been taken iff some worker had not left when it was pushed.  Everything
   taken has finished.
   */
  lemma PushIsTakenIffSomeoneStays(n: nat, run: seq<Step>, k: nat)
    requires n > 0 && Legal(n, run) && After(n, run).stage == Joined && k < |run| && run[k].Push?
    ensures |PushLog(run[..k])| < |TakeLog(n, run)| <==> exists w :: StaysFor(n, run, k, w)
    ensures |PushLog(run[..k])| < |TakeLog(n, run)| ==> TakeLog(n, run)[|PushLog(run[..k])|] == run[k].task
    ensures multiset(TakeLog(n, run)) == multiset(FinishLog(n, run))
  {
    JoinedMeansFinished(n, run);
    LegalPrefix(n, run, k);
    LegalPrefix(n, run, k + 1);
    PushedNext(n, run, k);
    ReachableInv(n, run);
    hide Legal, After, TakeLog, PushLog, FinishLog;
    if w :| StaysFor(n, run, k, w) {
      SameCrew(n, run, k, w);
      LeavingMeansDrained(n, run, k + 1, w);
    } else {
      forall w | 0 <= w < |After(n, run[..k]).workers| ensures After(n, run[..k]).workers[w] == Exited {
        assert !StaysFor(n, run, k, w);
      }
      NobodyTakes(n, run, k);
      TakenInPushOrder(n, run[..k]);
    }
    TakenArePushed(n, run, k);
  }

  lemma PushedNext(n: nat, run: seq<Step>, k: nat)
    requires k < |run| && run[k].Push?
    ensures PushLog(run[..k + 1]) == PushLog(run[..k]) + [run[k].task]
  {
    assert run[..k + 1][..k] == run[..k];
  }

  /** A push leaves the workers alone, and in the end all of them are gone. */
  lemma SameCrew(n: nat, run: seq<Step>, k: nat, w: nat)
    requires n > 0 && Legal(n, run) && After(n, run).stage == Joined && k < |run| && run[k].Push?
    requires StaysFor(n, run, k, w) && Legal(n, run[..k + 1])
    ensures StaysFor(n, run, k + 1, w) && IsAt(After(n, run), w, Exited)
  {
    ReachableInv(n, run);
    ReachableInv(n, run[..k]);
    assert run[..k + 1][..k] == run[..k];
    hide NoLostWakeup;
  }

  /** Tasks come off the queue under their push numbers. */
  lemma TakenArePushed(n: nat, run: seq<Step>, k: nat)
    requires Legal(n, run) && k < |run| && run[k].Push?
    ensures |PushLog(run[..k])| < |TakeLog(n, run)| ==> TakeLog(n, run)[|PushLog(run[..k])|] == run[k].task
  {
    PushedNext(n, run, k);
    PushLogGrows(run, k + 1);
    TakenInPushOrder(n, run);
    hide Legal, After, TakeLog, PushLog;
    assert PushLog(run)[|PushLog(run[..k])|] == PushLog(run[..k + 1])[|PushLog(run[..k])|];
  }

  /**
   Graceful shutdown: when `shutdown` has joined all workers, every task pushed before the flag was
   set has been taken, and every task taken has finished.
   */
  lemma ShutdownDrains(n: nat, run: seq<Step>, k: nat)
    requires n > 0 && Legal(n, run) && k < |run| && run[k] == SetFlag
    requires After(n, run).stage == Joined
    ensures PushLog(run[..k]) <= TakeLog(n, run)
    ensures multiset(TakeLog(n, run)) == multiset(FinishLog(n, run))
  {
    var s := After(n, run);
    ReachableInv(n, run);
    assert s.workers[0] == Exited;
    NobodyHasLeft(n, run, k);
    LeavingMeansDrained(n, run, k, 0);
    JoinedMeansFinished(n, run);
  }

  lemma JoinedMeansFinished(n: nat, run: seq<Step>)
    requires n > 0 && Legal(n, run) && After(n, run).stage == Joined
    ensures multiset(TakeLog(n, run)) == multiset(FinishLog(n, run))
  {
    ReachableInv(n, run);
    TakenAreFinishedOrExecuting(n, run);
    ExecutingNone(After(n, run).workers);
  }

  lemma NobodyHasLeft(n: nat, run: seq<Step>, k: nat)
    requires n > 0 && Legal(n, run) && k < |run| && run[k] == SetFlag
    ensures StaysFor(n, run, k, 0)
  {
    LegalPrefix(n, run, k);
    LegalPrefix(n, run, k + 1);
    assert run[..k + 1][..k] == run[..k];
    ReachableInv(n, run[..k]);
    var s := After(n, run[..k]);
    assert s.workers[0] in s.workers;
  }

  /** The tasks whose `enqueue` has passed the flag test, in order. */
  function AdmitLog(run: seq<Step>): seq<Task> {
    if run == [] then []
    else
      var step := run[|run| - 1];
      AdmitLog(run[..|run| - 1]) + if step.Admit? then [step.task] else []
  }

  lemma StepAdmits(s: Pool, step: Step)
    requires Enabled(s, step)
    ensures
      Next(s, step).admitted + (if step.Push? then multiset{step.task} else multiset{}) ==
      s.admitted + (if step.Admit? then multiset{step.task} else multiset{})
    ensures Flag(s) ==> Flag(Next(s, step)) && !step.Admit?
  {
    hide Wake;
  }

  /** Every admitted task is pushed once or still on its way. */
  lemma {:induction false} AdmittedArePushed(n: nat, run: seq<Step>)
    requires Legal(n, run)
    ensures multiset(PushLog(run)) + After(n, run).admitted == multiset(AdmitLog(run))
  {
    if run != [] {
      var past, step := run[..|run| - 1], run[|run| - 1];
      TakeLogStep(n, run);
      AdmittedArePushed(n, past);
      StepAdmits(After(n, past), step);
      var push: seq<Task> := if step.Push? then [step.task] else [];
      var admit: seq<Task> := if step.Admit? then [step.task] else [];
      assert AdmitLog(run) == AdmitLog(past) + admit && PushLog(run) == PushLog(past) + push;
      hide *;
      AdmitBalance(multiset(PushLog(past)), After(n, past).admitted, After(n, run).admitted, multiset(push),
                   multiset(admit));
    }
  }

  lemma AdmitBalance(pushed: multiset<Task>, before: multiset<Task>, after: multiset<Task>, push: multiset<Task>,
                     admit: multiset<Task>)
    requires after + push == before + admit
    ensures pushed + push + after == pushed + before + admit
  {
    forall t ensures (pushed + push + after)[t] == (pushed + before + admit)[t] {
      assert (after + push)[t] == (before + admit)[t];
    }
  }

  lemma {:induction false} FlagStaysSet(n: nat, run: seq<Step>, k: nat)
    requires Legal(n, run) && k < |run| && run[k] == SetFlag
    ensures Flag(After(n, run)) && AdmitLog(run) == AdmitLog(run[..k])
  {
    var past, step := run[..|run| - 1], run[|run| - 1];
    TakeLogStep(n, run);
    if k == |past| {
      assert run[..k] == past;
    } else {
      FlagStaysSet(n, past, k);
      StepAdmits(After(n, past), step);
      assert past[..k] == run[..k];
    }
    hide Legal, After;
  }

  /** Nothing is admitted once the flag is set: whatever is ever pushed was admitted before, each as often. */
  lemma PushedWereAdmitted(n: nat, run: seq<Step>, k: nat)
    requires Legal(n, run) && k < |run| && run[k] == SetFlag
    ensures multiset(PushLog(run)) <= multiset(AdmitLog(run[..k]))
  {
    FlagStaysSet(n, run, k);
    AdmittedArePushed(n, run);
    hide *;
  }

  // ---------------------------------------------------------------------------------------------
  // Progress
  // ---------------------------------------------------------------------------------------------

  /** Steps the pool makes by itself; the others are decisions of callers and spurious wakeups. */
  predicate IsInternal(step: Step) {
    !(step.Admit? || step.Reject? || step.Spurious? || step.SetFlag?)
  }

  function Weight(w: Worker): nat {
    match w
    case Awake => 1
    case Busy(_) => 2
    case _ => 0
  }

  function Load(workers: seq<Worker>): nat {
    if workers == [] then 0 else Load(workers[..|workers| - 1]) + Weight(workers[|workers| - 1])
  }

  /** How much internal work is left: joins, pushes, notifications, queued tasks and awake workers. */
  function Work(s: Pool): int {
    var n := |s.workers|;
    (match s.stage
     case Open => 0
     case FlagSet => 2 * n + 1
     case Joining(next) => n - next
     case Joined => 0)
    + 6 * |s.admitted| + 2 * s.notifies + 3 * |s.queue| + Load(s.workers)
  }

  lemma {:induction false} LoadUpdate(workers: seq<Worker>, w: nat, state: Worker)
    requires w < |workers|
    ensures Load(workers[w := state]) + Weight(workers[w]) == Load(workers) + Weight(state)
  {
    var init, changed := workers[..|workers| - 1], workers[w := state];
    if w < |workers| - 1 {
      LoadUpdate(init, w, state);
      assert changed[..|workers| - 1] == init[w := state];
    } else {
      assert changed[..|workers| - 1] == init;
    }
  }

  lemma {:induction false} LoadWake(workers: seq<Worker>)
    ensures Load(Wake(workers)) <= Load(workers) + |workers|
  {
    if workers != [] {
      var init := workers[..|workers| - 1];
      LoadWake(init);
      assert Wake(workers)[..|workers| - 1] == Wake(init);
    }
  }

  /** A worker's own step changes the load by its weight. */
  lemma WorkerStepLoad(s: Pool, step: Step)
    requires Enabled(s, step)
    ensures step.Sleep? || step.Exit? ==> Load(Next(s, step).workers) == Load(s.workers) - 1
    ensures step.Take? ==> Load(Next(s, step).workers) == Load(s.workers) + 1
    ensures step.Finish? ==> Load(Next(s, step).workers) == Load(s.workers) - 1
    ensures step.NotifyOne? ==> Load(Next(s, step).workers) == Load(s.workers) + 1
    ensures step.NotifyAll? ==> Load(Next(s, step).workers) <= Load(s.workers) + |s.workers|
  {
    match step
    case NotifyOne(w) => LoadUpdate(s.workers, w, Awake);
    case Sleep(w) => LoadUpdate(s.workers, w, Asleep);
    case Take(w) => LoadUpdate(s.workers, w, Busy(s.queue[0]));
    case Exit(w) => LoadUpdate(s.workers, w, Exited);
    case Finish(w) => LoadUpdate(s.workers, w, Awake);
    case NotifyAll => LoadWake(s.workers);
    case _ =>
  }

  /** Every internal step uses up some of the work. */
  lemma InternalStepsWork(s: Pool, step: Step)
    requires Inv(s) && Enabled(s, step) && IsInternal(step)
    ensures 0 <= Work(Next(s, step)) < Work(s)
  {
    StepKeepsInv(s, step);
    LoadNonNegative(Next(s, step));
    WorkerStepLoad(s, step);
    if step.Push? || step.NotifyNobody? || step.NotifyAll? || step.Join? {
      CallStepsWork(s, step);
    } else {
      WorkerStepsWork(s, step);
    }
    hide *;
  }

  lemma CallStepsWork(s: Pool, step: Step)
    requires Inv(s) && Enabled(s, step) && (step.Push? || step.NotifyNobody? || step.NotifyAll? || step.Join?)
    requires step.NotifyAll? ==> Load(Next(s, step).workers) <= Load(s.workers) + |s.workers|
    ensures Work(Next(s, step)) < Work(s)
  {
    assert s.stage.Joining? ==> s.stage.next < |s.workers|;
    hide Inv, Load, Wake;
  }

  lemma WorkerStepsWork(s: Pool, step: Step)
    requires Enabled(s, step)
    requires step.Sleep? || step.Exit? || step.Finish? || step.Take? || step.NotifyOne?
    requires Load(Next(s, step).workers) == Load(s.workers) + if step.Take? || step.NotifyOne? then 1 else -1
    ensures Work(Next(s, step)) < Work(s)
  {
    hide Load;
  }

  /** Nothing is left to do but to wait for callers. */
  ghost predicate Quiescent(s: Pool) {
    forall step :: IsInternal(step) ==> !Enabled(s, step)
  }

  lemma QuiescentWorker(s: Pool, w: nat)
    requires Quiescent(s) && w < |s.workers|
    ensures !IsActive(s.workers[w]) && (s.notifies > 0 ==> s.workers[w] != Asleep)
  {
    assert !Enabled(s, Sleep(w)) && !Enabled(s, Take(w)) && !Enabled(s, Exit(w)) && !Enabled(s, Finish(w));
    assert !Enabled(s, NotifyOne(w));
  }

  /**
   No deadlock: a pool that stands still has run everything that was pushed -- with all workers asleep
   while it is open, and with `shutdown` completed once the flag is set.
   */
  lemma QuiescentMeansDone(s: Pool)
    requires Inv(s) && Quiescent(s)
    ensures s.notifies == 0 && s.admitted == multiset{} && Executing(s.workers) == multiset{}
    ensures s.stage == Open ==> s.queue == [] && forall w :: 0 <= w < |s.workers| ==> s.workers[w] == Asleep
    ensures s.stage != Open ==> s.stage == Joined
  {
    assert !Enabled(s, NotifyNobody) && !Enabled(s, NotifyAll) && !Enabled(s, Join);
    forall task ensures task !in s.admitted {
      assert !Enabled(s, Push(task));
    }
    forall w | 0 <= w < |s.workers|
      ensures !IsActive(s.workers[w]) && (s.notifies > 0 ==> s.workers[w] != Asleep) && s.workers[w] in s.workers
    {
      QuiescentWorker(s, w);
    }
    hide Quiescent;
    ExecutingNone(s.workers);
  }

  /** Internal steps only, from a given state. */
  ghost predicate InternalRun(s: Pool, steps: seq<Step>)
    decreases |steps|
  {
    steps == [] ||
    (IsInternal(steps[0]) && Enabled(s, steps[0]) && InternalRun(Next(s, steps[0]), steps[1..]))
  }

  /** Left alone, with tasks that terminate, the pool comes to rest: the work bounds every internal run. */
  lemma {:induction false} InternalRunsEnd(s: Pool, steps: seq<Step>)
    requires Inv(s) && InternalRun(s, steps)
    ensures |steps| <= Work(s)
    decreases |steps|
  {
    LoadNonNegative(s);
    if steps != [] {
      StepKeepsInv(s, steps[0]);
      InternalStepsWork(s, steps[0]);
      InternalRunsEnd(Next(s, steps[0]), steps[1..]);
    }
  }

  lemma LoadNonNegative(s: Pool)
    requires Inv(s)
    ensures Work(s) >= 0
  {
  }

  /** When an open pool has come to rest, every task ever pushed has run, in spite of any lost notification. */
  lemma RestMeansEverythingRan(n: nat, run: seq<Step>)
    requires n > 0 && Legal(n, run) && After(n, run).stage == Open && Quiescent(After(n, run))
    ensures multiset(FinishLog(n, run)) == multiset(PushLog(run)) && TakeLog(n, run) == PushLog(run)
  {
    var s := After(n, run);
    ReachableInv(n, run);
    QuiescentMeansDone(s);
    TakenInPushOrder(n, run);
    TakenAreFinishedOrExecuting(n, run);
    assert TakeLog(n, run) + [] == TakeLog(n, run);
  }

  /** A producer passes the flag test, the pool shuts down, and only then the producer pushes. */
  function LatePush(task: Task): seq<Step> {
    [] + [Admit(task), SetFlag] + [NotifyAll, Exit(0)] + [Push(task), NotifyNobody] + [Join]
  }

  lemma LatePushStarts(task: Task, s0: Pool, s2: Pool)
    requires s0 == Pool([Awake], [], Open, multiset{}, 0) && s2 == Pool([Awake], [], FlagSet, multiset{task}, 0)
    ensures Legal(1, []) && After(1, []) == s0
    ensures Enabled(s0, Admit(task)) && Enabled(Next(s0, Admit(task)), SetFlag)
    ensures Next(Next(s0, Admit(task)), SetFlag) == s2
  {
  }

  lemma LatePushLeaves(task: Task, s2: Pool, s4: Pool)
    requires s2 == Pool([Awake], [], FlagSet, multiset{task}, 0)
    requires s4 == Pool([Exited], [], Joining(0), multiset{task}, 0)
    ensures Enabled(s2, NotifyAll) && Enabled(Next(s2, NotifyAll), Exit(0)) && Next(Next(s2, NotifyAll), Exit(0)) == s4
  {
    assert Wake([Awake]) == [Awake];
  }

  lemma LatePushEnds(task: Task, s4: Pool, s6: Pool)
    requires s4 == Pool([Exited], [], Joining(0), multiset{task}, 0)
    requires s6 == Pool([Exited], [task], Joining(0), multiset{}, 0)
    ensures Enabled(s4, Push(task)) && Enabled(Next(s4, Push(task)), NotifyNobody)
    ensures Next(Next(s4, Push(task)), NotifyNobody) == s6
    ensures Enabled(s6, Join) && Next(s6, Join) == s6.(stage := Joined)
  {
  }

  /**
   The flag test outside the lock matters: a task admitted before the flag is set and pushed after the
   last worker has left stays in the queue of a pool whose shutdown has completed.
   */
  lemma LatePushIsStranded(task: Task)
    ensures Legal(1, LatePush(task))
    ensures After(1, LatePush(task)).stage == Joined && After(1, LatePush(task)).queue == [task]
  {
    var s0 := Pool([Awake], [], Open, multiset{}, 0);
    var s2 := Pool([Awake], [], FlagSet, multiset{task}, 0);
    var s4 := Pool([Exited], [], Joining(0), multiset{task}, 0);
    var s6 := Pool([Exited], [task], Joining(0), multiset{}, 0);
    hide Legal, After, Enabled, Next;
    LatePushStarts(task, s0, s2);
    LatePushLeaves(task, s2, s4);
    LatePushEnds(task, s4, s6);
    var r2 := [] + [Admit(task), SetFlag];
    var r4 := r2 + [NotifyAll, Exit(0)];
    var r6 := r4 + [Push(task), NotifyNobody];
    ExtendTwice(1, [], s0, Admit(task), SetFlag);
    ExtendTwice(1, r2, s2, NotifyAll, Exit(0));
    ExtendTwice(1, r4, s4, Push(task), NotifyNobody);
    Extend(1, r6, Join);
  }

  lemma Extend(n: nat, run: seq<Step>, step: Step)
    requires Legal(n, run) && Enabled(After(n, run), step)
    ensures Legal(n, run + [step]) && After(n, run + [step]) == Next(After(n, run), step)
  {
    assert (run + [step])[..|run|] == run;
  }

  lemma ExtendTwice(n: nat, run: seq<Step>, s: Pool, a: Step, b: Step)
    requires Legal(n, run) && After(n, run) == s && Enabled(s, a) && Enabled(Next(s, a), b)
    ensures Legal(n, run + [a, b]) && After(n, run + [a, b]) == Next(Next(s, a), b)
  {
    Extend(n, run, a);
    Extend(n, run + [a], b);
    assert run + [a] + [b] == run + [a, b];
  }
}
