/** What the thread pool guarantees over all runs. */
module ThreadPoolTheorems {
  import opened ThreadPool

  /** In no reachable state do all live workers sleep over a task with no notification on its way. */
  lemma NoLostWakeup(s: Pool)
    requires Reachable(s) && s.queue != []
    requires exists i :: 0 <= i < |s.workers| && s.workers[i] != Exited
    ensures s.unnotified > 0 || s.teardown == Stopped
            || exists i :: 0 <= i < |s.workers| && s.workers[i] != Exited && s.workers[i] != Asleep
  {
    ReachableInv(s);
    if AnyAwake(s.workers) {
      var i :| 0 <= i < |s.workers| && Awake(s.workers[i]);
    }
  }

  /** At most one thread is inside the mutex, and none of them is another worker. */
  lemma MutualExclusion(s: Pool, i: nat, j: nat)
    requires Reachable(s) && i < |s.workers| && j < |s.workers|
    requires s.workers[i] == HoldsLock
    ensures s.holder == WorkerHolds(i) && (s.workers[j] == HoldsLock ==> i == j)
  {
    ReachableInv(s);
  }

  /** Tasks are taken in the order they were pushed, each once: what was taken is a prefix of what was
      pushed, the queue is the rest, and every one taken is running or has run as often as it was taken. */
  lemma TakenInOrderOnce(s: Pool, t: Task)
    requires Reachable(s)
    ensures s.pushed == s.taken + s.queue
    ensures multiset(s.taken)[t] == s.finished[t] + InProgress(s.workers, t)
  {
    ReachableInv(s);
  }

  /** When all workers have exited, every task pushed before the stop has been taken, in order, and every task
      taken has run to its end. The queue is then what was pushed after the last exit: it is empty if and only
      if nobody submitted so late. */
  lemma DrainedOnExit(s: Pool)
    requires Reachable(s) && AllExited(s.workers)
    ensures s.stop && s.pushedAtStop <= |s.taken| && s.taken <= s.pushed
    ensures multiset(s.taken) == s.finished
    ensures s.pushedAtExit <= |s.pushed| && s.queue == s.pushed[s.pushedAtExit..]
    ensures s.queue == [] <==> |s.pushed| == s.pushedAtExit
  {
    ReachableInv(s);
    assert s.workers[0] == Exited;
    forall t: Task ensures multiset(s.taken)[t] == s.finished[t] {
      NoneInProgress(s.workers, t);
    }
  }

  lemma {:induction false} RunExtends(s: Pool, steps: seq<Step>, step: Step)
    requires IsRun(s, steps) && Enabled(After(s, steps), step)
    ensures IsRun(s, steps + [step]) && After(s, steps + [step]) == Next(After(s, steps), step)
    decreases |steps|
  {
    if steps == [] {
      assert [step][1..] == [] && [] + [step] == [step];
    } else {
      assert (steps + [step])[1..] == steps[1..] + [step];
      RunExtends(Next(s, steps[0]), steps[1..], step);
    }
  }

  /** A pool of one worker that was stopped and whose worker has left, with the run that makes it so. */
  function StoppedAndLeft(): seq<Step> {
    [DestructorLock, DestructorStop, WorkerLock(0), WorkerCheck(0)]
  }

  lemma StoppedAndLeftRuns()
    ensures IsRun(NewPool(1), StoppedAndLeft())
    ensures var s := After(NewPool(1), StoppedAndLeft());
            s.workers == [Exited] && s.queue == [] && s.holder == Nobody && s.stop
  {
    var p := NewPool(1);
    RunExtends(p, [], DestructorLock);
    RunExtends(p, [DestructorLock], DestructorStop);
    assert [DestructorLock] + [DestructorStop] == [DestructorLock, DestructorStop];
    RunExtends(p, [DestructorLock, DestructorStop], WorkerLock(0));
    assert [DestructorLock, DestructorStop] + [WorkerLock(0)] == [DestructorLock, DestructorStop, WorkerLock(0)];
    RunExtends(p, [DestructorLock, DestructorStop, WorkerLock(0)], WorkerCheck(0));
    assert [DestructorLock, DestructorStop, WorkerLock(0)] + [WorkerCheck(0)] == StoppedAndLeft();
  }

  /** A plain submission after the last exit really is lost. */
  lemma LateSubmissionIsLost(task: Task) returns (steps: seq<Step>)
    ensures IsRun(NewPool(1), steps)
    ensures var s := After(NewPool(1), steps); AllExited(s.workers) && s.queue == [task]
  {
    StoppedAndLeftRuns();
    RunExtends(NewPool(1), StoppedAndLeft(), SubmitLock(task, false));
    steps := StoppedAndLeft() + [SubmitLock(task, false)];
    RunExtends(NewPool(1), steps, SubmitPush);
    steps := steps + [SubmitPush];
  }

  // ------------------------------------------------- who submits after the stop

  /** A submission without the stop check is about to push into a stopped pool. */
  predicate PushesLate(s: Pool, step: Step) {
    step.SubmitPush? && s.holder.SubmitterHolds? && s.stop && !s.holder.checked
  }

  predicate NoLatePush(s: Pool, steps: seq<Step>)
    requires IsRun(s, steps)
    decreases |steps|
  {
    steps == [] || (!PushesLate(s, steps[0]) && NoLatePush(Next(s, steps[0]), steps[1..]))
  }

  predicate NothingSinceStop(s: Pool) {
    s.stop ==> |s.pushed| == s.pushedAtStop
  }

  lemma {:induction false} NoLatePushKeeps(s: Pool, steps: seq<Step>)
    requires IsRun(s, steps) && NoLatePush(s, steps) && NothingSinceStop(s)
    ensures NothingSinceStop(After(s, steps))
    decreases |steps|
  {
    if steps != [] {
      NoLatePushKeeps(Next(s, steps[0]), steps[1..]);
    }
  }

  /** When nobody submits without the stop check after the stop, the queue is empty once all workers have exited. */
  lemma DrainedWithoutLatePush(threadCount: nat, steps: seq<Step>)
    requires IsRun(NewPool(threadCount), steps) && NoLatePush(NewPool(threadCount), steps)
    requires AllExited(After(NewPool(threadCount), steps).workers)
    ensures After(NewPool(threadCount), steps).queue == []
  {
    var s := After(NewPool(threadCount), steps);
    NoLatePushKeeps(NewPool(threadCount), steps);
    assert Reachable(s);
    TakenInOrderOnce(s, 0);
    DrainedOnExit(s);
  }

  /** In all runs, late pushes excluded or not, a pool whose workers have exited has an empty queue. */
  predicate AlwaysDrains(latePushes: bool, threadCount: nat, steps: seq<Step>) {
    IsRun(NewPool(threadCount), steps) && (latePushes || NoLatePush(NewPool(threadCount), steps))
    && AllExited(After(NewPool(threadCount), steps).workers)
    ==> After(NewPool(threadCount), steps).queue == []
  }

  /** So the promise of an empty queue holds for all runs if and only if late submissions without the check are kept out. */
  lemma DrainsIff(latePushes: bool)
    ensures (forall n: nat, steps :: AlwaysDrains(latePushes, n, steps)) <==> !latePushes
  {
    if latePushes {
      var steps := LateSubmissionIsLost(0);
      assert !AlwaysDrains(true, 1, steps);
    } else {
      forall n: nat, steps ensures AlwaysDrains(false, n, steps) {
        if IsRun(NewPool(n), steps) && NoLatePush(NewPool(n), steps) && AllExited(After(NewPool(n), steps).workers) {
          DrainedWithoutLatePush(n, steps);
        }
      }
    }
  }

  // ------------------------------------------------- what becomes of a submission

  lemma PoolSize(threadCount: nat)
    ensures |NewPool(threadCount).workers| == if threadCount == 0 then 1 else threadCount
  {
  }

  /** A submission ends with its task at the back of the queue and one more notification due, unless it is a checked
      one and the pool was stopped. */
  lemma SubmissionQueues(s: Pool, task: Task, checked: bool)
    requires s.holder == SubmitterHolds(task, checked)
    ensures Enabled(s, SubmitPush)
    ensures var t, accepted := Next(s, SubmitPush), !checked || !s.stop;
            && t.holder == Nobody && t.workers == s.workers && t.stop == s.stop
            && t.queue == (if accepted then s.queue + [task] else s.queue)
            && t.unnotified == (if accepted then s.unnotified + 1 else s.unnotified)
  {
  }

  datatype Submission = Idle | Submitting(task: Task, checked: bool)

  function SubmissionAfter(submission: Submission, step: Step): Submission {
    match step
    case SubmitLock(task, checked) => Submitting(task, checked)
    case SubmitPush => Idle
    case _ => submission
  }

  function AcceptedBy(submission: Submission, stopped: bool, step: Step): seq<Task> {
    if step.SubmitPush? && submission.Submitting? && (!submission.checked || !stopped) then [submission.task] else []
  }

  /** The tasks that are accepted, told from the steps alone: those submitted without the check, or before the stop. */
  function Accepted(steps: seq<Step>, submission: Submission, stopped: bool): seq<Task>
    decreases |steps|
  {
    if steps == [] then [] else
    AcceptedBy(submission, stopped, steps[0])
    + Accepted(steps[1..], SubmissionAfter(submission, steps[0]), stopped || steps[0].DestructorStop?)
  }

  function SubmissionOf(s: Pool): Submission {
    if s.holder.SubmitterHolds? then Submitting(s.holder.task, s.holder.checked) else Idle
  }

  /** A worker inside the mutex is its holder. */
  predicate HolderKnown(s: Pool) {
    forall i: nat :: i < |s.workers| && s.workers[i] == HoldsLock ==> s.holder == WorkerHolds(i)
  }

  lemma StepAccepts(s: Pool, step: Step)
    requires HolderKnown(s) && Enabled(s, step)
    ensures var t := Next(s, step);
            && t.pushed == s.pushed + AcceptedBy(SubmissionOf(s), s.stop, step)
            && SubmissionOf(t) == SubmissionAfter(SubmissionOf(s), step)
            && t.stop == (s.stop || step.DestructorStop?)
            && HolderKnown(t)
  {
    match step {
      case WorkerCheck(i) => assert s.holder == WorkerHolds(i);
      case _ =>
    }
  }

  lemma ThreeParts(a: seq<Task>, b: seq<Task>, c: seq<Task>)
    ensures (a + b) + c == a + (b + c)
  {
  }

  lemma {:induction false} PushedExtends(s: Pool, steps: seq<Step>)
    requires HolderKnown(s) && IsRun(s, steps)
    ensures After(s, steps).pushed == s.pushed + Accepted(steps, SubmissionOf(s), s.stop)
    decreases |steps|
  {
    if steps != [] {
      var t := Next(s, steps[0]);
      StepAccepts(s, steps[0]);
      PushedExtends(t, steps[1..]);
      ThreeParts(s.pushed, AcceptedBy(SubmissionOf(s), s.stop, steps[0]), Accepted(steps[1..], SubmissionOf(t), t.stop));
    }
  }

  /** What is accepted is what was taken, in order, and then the queue; nothing accepted is lost and nothing else is
      ever taken. */
  lemma AcceptedInOrderOnce(threadCount: nat, steps: seq<Step>, t: Task)
    requires IsRun(NewPool(threadCount), steps)
    ensures var s := After(NewPool(threadCount), steps);
            && Accepted(steps, Idle, false) == s.taken + s.queue
            && multiset(s.taken)[t] == s.finished[t] + InProgress(s.workers, t)
  {
    var s := After(NewPool(threadCount), steps);
    assert Reachable(s);
    PushedExtends(NewPool(threadCount), steps);
    TakenInOrderOnce(s, t);
  }

  /** When all workers have exited and no submission without the check came after the stop, everything accepted has run,
      as often as it was accepted. */
  lemma AcceptedAllRan(threadCount: nat, steps: seq<Step>)
    requires IsRun(NewPool(threadCount), steps) && NoLatePush(NewPool(threadCount), steps)
    requires AllExited(After(NewPool(threadCount), steps).workers)
    ensures After(NewPool(threadCount), steps).finished == multiset(Accepted(steps, Idle, false))
  {
    var s := After(NewPool(threadCount), steps);
    assert Reachable(s);
    AcceptedInOrderOnce(threadCount, steps, 0);
    DrainedWithoutLatePush(threadCount, steps);
    DrainedOnExit(s);
    assert s.taken + [] == s.taken;
  }

  // --------------------------------------------------------------- progress

  /** The steps that are not somebody's decision to begin something. */
  predicate Internal(step: Step) {
    !step.SubmitLock? && !step.DestructorLock? && !step.SpuriousWake?
  }

  /** The pool never gets stuck: with a task queued and a worker left, or with the stop requested and the
      destructor not finished, some step that is already under way can be taken. */
  lemma NeverStuck(s: Pool) returns (step: Step)
    requires Reachable(s)
    requires (s.queue != [] && !AllExited(s.workers)) || (s.stop && s.teardown != Joined)
    ensures Internal(step) && Enabled(s, step)
  {
    ReachableInv(s);
    match s.holder
    case WorkerHolds(i) => step := WorkerCheck(i);
    case SubmitterHolds(_, _) => step := SubmitPush;
    case DestructorHolds => step := DestructorStop;
    case Nobody =>
      if AnyAwake(s.workers) {
        var i: nat :| i < |s.workers| && Awake(s.workers[i]);
        step := if s.workers[i].Running? then WorkerFinish(i) else WorkerLock(i);
      } else if s.teardown == Stopped {
        step := NotifyAll;
      } else if s.stop {
        step := Join;
      } else if AnyAsleep(s.workers) {
        var i: nat :| i < |s.workers| && s.workers[i] == Asleep;
        step := NotifyOne(i);
      } else {
        step := NotifyNobody;
      }
  }

  // ------------------------------------------------------- shutdown finishes

  function Weight(w: Worker): nat {
    match w
    case HoldsLock => 1
    case AtLoopHead => 2
    case Woken => 2
    case Asleep => 3
    case Running(_) => 3
    case Exited => 0
  }

  function Weights(workers: seq<Worker>): nat {
    if workers == [] then 0 else Weight(workers[0]) + Weights(workers[1..])
  }

  /** What is left to do once the pool has been told to stop. */
  function Remaining(s: Pool): nat {
    4 * |s.queue| + Weights(s.workers) + s.unnotified
    + match s.teardown case NotBegun => 3 case Stopped => 2 case Notified => 1 case Joined => 0
  }

  lemma {:induction false} WeightsUpdate(workers: seq<Worker>, i: nat, w: Worker)
    requires i < |workers|
    ensures Weights(workers[i := w]) + Weight(workers[i]) == Weights(workers) + Weight(w)
  {
    if i == 0 {
      assert workers[i := w][1..] == workers[1..];
    } else {
      assert workers[i := w][1..] == workers[1..][i - 1 := w];
      WeightsUpdate(workers[1..], i - 1, w);
    }
  }

  lemma {:induction false} WakeAllWeighsLess(workers: seq<Worker>)
    ensures Weights(WakeAll(workers)) <= Weights(workers)
  {
    if workers != [] {
      assert WakeAll(workers)[1..] == WakeAll(workers[1..]);
      WakeAllWeighsLess(workers[1..]);
    }
  }

  /** Nobody submits any more. */
  predicate NoSubmissions(steps: seq<Step>) {
    forall i :: 0 <= i < |steps| ==> !steps[i].SubmitLock?
  }

  lemma StepDecreases(s: Pool, step: Step)
    requires s.stop && !s.holder.SubmitterHolds? && MutexOk(s) && Enabled(s, step) && !step.SubmitLock?
    ensures Remaining(Next(s, step)) < Remaining(s)
    ensures Next(s, step).stop && !Next(s, step).holder.SubmitterHolds?
  {
    match step
    case NotifyOne(i) => WeightsUpdate(s.workers, i, Woken);
    case WorkerLock(i) => WeightsUpdate(s.workers, i, HoldsLock);
    case WorkerCheck(i) => WeightsUpdate(s.workers, i, Next(s, step).workers[i]);
    case WorkerFinish(i) => WeightsUpdate(s.workers, i, AtLoopHead);
    case SpuriousWake(i) => WeightsUpdate(s.workers, i, Woken);
    case NotifyAll => WakeAllWeighsLess(s.workers);
    case _ =>
  }

  /** Once stopped and no longer submitted to, the pool takes at most `Remaining` further steps, whoever takes
      them and however often a worker wakes for nothing. */
  lemma {:induction false} ShutdownTerminates(s: Pool, steps: seq<Step>)
    requires Inv(s) && s.stop && !s.holder.SubmitterHolds? && IsRun(s, steps) && NoSubmissions(steps)
    ensures |steps| + Remaining(After(s, steps)) <= Remaining(s)
    ensures Inv(After(s, steps)) && After(s, steps).stop && After(s, steps).pushed == s.pushed
    decreases |steps|
  {
    if steps != [] {
      StepDecreases(s, steps[0]);
      RunKeepsInv(s, [steps[0]]);
      assert [steps[0]][1..] == [];
      assert After(s, [steps[0]]) == Next(s, steps[0]);
      ShutdownTerminates(Next(s, steps[0]), steps[1..]);
    }
  }

  /** And when no further step is possible the destructor has joined every worker, every task pushed before the
      stop has run, and the only tasks left in the queue are those pushed after the last worker was gone. */
  lemma ShutdownCompletes(s: Pool)
    requires Reachable(s) && s.stop
    requires forall step :: Enabled(s, step) ==> step.SubmitLock?
    ensures s.teardown == Joined && AllExited(s.workers)
    ensures s.pushedAtStop <= |s.taken| && multiset(s.taken) == s.finished
    ensures s.pushedAtExit <= |s.pushed| && s.queue == s.pushed[s.pushedAtExit..]
  {
    if s.teardown != Joined {
      var step := NeverStuck(s);
    }
    ReachableInv(s);
    DrainedOnExit(s);
  }
}
