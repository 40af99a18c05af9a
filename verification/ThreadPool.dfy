/** The thread pool as a transition system: workers, one mutex, one condition variable, submitters that have
    pushed and not yet notified, and a destructor that stops and joins. */
module ThreadPool {

  type Task = nat

  /** Where a worker is in its loop. A `Woken` worker still has to take the mutex back. */
  datatype Worker = AtLoopHead | Woken | HoldsLock | Asleep | Running(task: Task) | Exited

  /** Who is inside the mutex. A checked submission is the templated one, which refuses a stopped pool. */
  datatype Holder = Nobody | WorkerHolds(i: nat) | SubmitterHolds(task: Task, checked: bool) | DestructorHolds

  /** How far the destructor has come: `Stopped` has released the mutex and not yet notified. */
  datatype Teardown = NotBegun | Stopped | Notified | Joined

  /** The last five fields record history: what was pushed, what was taken, what ran to its end,
      and how many had been pushed when the pool was stopped and when a worker last exited. */
  datatype Pool = Pool(
    workers: seq<Worker>,
    holder: Holder,
    queue: seq<Task>,
    stop: bool,
    unnotified: nat,
    teardown: Teardown,
    pushed: seq<Task>,
    taken: seq<Task>,
    finished: multiset<Task>,
    pushedAtStop: nat,
    pushedAtExit: nat)

  function NewPool(threadCount: nat): Pool {
    var n := if threadCount == 0 then 1 else threadCount;
    Pool(seq(n, _ => AtLoopHead), Nobody, [], false, 0, NotBegun, [], [], multiset{}, 0, 0)
  }

  datatype Step =
    | SubmitLock(task: Task, checked: bool)
    | SubmitPush
    | NotifyOne(i: nat)
    | NotifyNobody
    | WorkerLock(i: nat)
    | WorkerCheck(i: nat)
    | WorkerFinish(i: nat)
    | SpuriousWake(i: nat)
    | DestructorLock
    | DestructorStop
    | NotifyAll
    | Join

  predicate AnyAsleep(workers: seq<Worker>) {
    exists i :: 0 <= i < |workers| && workers[i] == Asleep
  }

  predicate AllExited(workers: seq<Worker>) {
    forall i :: 0 <= i < |workers| ==> workers[i] == Exited
  }

  predicate Enabled(s: Pool, step: Step) {
    match step
    case SubmitLock(_, _) => s.holder == Nobody
    case SubmitPush => s.holder.SubmitterHolds?
    case NotifyOne(i) => s.unnotified > 0 && i < |s.workers| && s.workers[i] == Asleep
    case NotifyNobody => s.unnotified > 0 && !AnyAsleep(s.workers)
    case WorkerLock(i) => i < |s.workers| && (s.workers[i] == AtLoopHead || s.workers[i] == Woken) && s.holder == Nobody
    case WorkerCheck(i) => i < |s.workers| && s.workers[i] == HoldsLock
    case WorkerFinish(i) => i < |s.workers| && s.workers[i].Running?
    case SpuriousWake(i) => i < |s.workers| && s.workers[i] == Asleep
    case DestructorLock => s.teardown == NotBegun && s.holder == Nobody
    case DestructorStop => s.holder == DestructorHolds
    case NotifyAll => s.teardown == Stopped
    case Join => s.teardown == Notified && AllExited(s.workers)
  }

  function WakeAll(workers: seq<Worker>): seq<Worker> {
    seq(|workers|, i requires 0 <= i < |workers| => if workers[i] == Asleep then Woken else workers[i])
  }

  /** The wait predicate and what follows it, up to the release of the mutex. */
  function Check(s: Pool, i: nat): Pool
    requires i < |s.workers|
  {
    if !s.stop && s.queue == [] then
      s.(workers := s.workers[i := Asleep], holder := Nobody)
    else if s.queue == [] then
      s.(workers := s.workers[i := Exited], holder := Nobody, pushedAtExit := |s.pushed|)
    else
      s.(workers := s.workers[i := Running(s.queue[0])], holder := Nobody,
         queue := s.queue[1..], taken := s.taken + [s.queue[0]])
  }

  function Push(s: Pool, task: Task): Pool {
    s.(queue := s.queue + [task], pushed := s.pushed + [task], unnotified := s.unnotified + 1, holder := Nobody)
  }

  function Next(s: Pool, step: Step): Pool
    requires Enabled(s, step)
  {
    match step
    case SubmitLock(task, checked) => s.(holder := SubmitterHolds(task, checked))
    case SubmitPush => if s.holder.checked && s.stop then s.(holder := Nobody) else Push(s, s.holder.task)
    case NotifyOne(i) => s.(workers := s.workers[i := Woken], unnotified := s.unnotified - 1)
    case NotifyNobody => s.(unnotified := s.unnotified - 1)
    case WorkerLock(i) => s.(workers := s.workers[i := HoldsLock], holder := WorkerHolds(i))
    case WorkerCheck(i) => Check(s, i)
    case WorkerFinish(i) => s.(workers := s.workers[i := AtLoopHead], finished := s.finished + multiset{s.workers[i].task})
    case SpuriousWake(i) => s.(workers := s.workers[i := Woken])
    case DestructorLock => s.(holder := DestructorHolds)
    case DestructorStop => s.(stop := true, holder := Nobody, teardown := Stopped, pushedAtStop := |s.pushed|)
    case NotifyAll => s.(workers := WakeAll(s.workers), teardown := Notified)
    case Join => s.(teardown := Joined)
  }

  predicate IsRun(s: Pool, steps: seq<Step>)
    decreases |steps|
  {
    steps == [] || (Enabled(s, steps[0]) && IsRun(Next(s, steps[0]), steps[1..]))
  }

  function After(s: Pool, steps: seq<Step>): Pool
    requires IsRun(s, steps)
    decreases |steps|
  {
    if steps == [] then s else After(Next(s, steps[0]), steps[1..])
  }

  ghost predicate Reachable(s: Pool) {
    exists n: nat, steps :: IsRun(NewPool(n), steps) && s == After(NewPool(n), steps)
  }

  // ------------------------------------------------------------- the object

  /** What a worker does once it has the mutex: wait, leave its loop, or run a task. */
  datatype Decision = Wait | Leave | RunTask(task: Task)

  function WorkerAfter(d: Decision): Worker {
    match d
    case Wait => Asleep
    case Leave => Exited
    case RunTask(t) => Running(t)
  }

  /** The fields the mutex guards. Each method is one critical section, and is proved to be the step of the
      system that stands for it. */
  class ThreadPool {
    var queue: seq<Task>
    var stop: bool

    constructor ()
      ensures queue == NewPool(0).queue && stop == NewPool(0).stop
    {
      queue, stop := [], false;
    }

    /** The guarded fields are those of `s`. */
    ghost predicate Shows(s: Pool)
      reads this
    {
      queue == s.queue && stop == s.stop
    }

    method Submit(task: Task)
      modifies this
      ensures forall s :: old(Shows(s)) && s.holder == SubmitterHolds(task, false) ==> Shows(Next(s, SubmitPush))
    {
      queue := queue + [task];
    }

    /** The templated form; it throws when `ok` is false. */
    method SubmitChecked(task: Task) returns (ok: bool)
      modifies this
      ensures ok == !old(stop) && queue == if ok then old(queue) + [task] else old(queue)
      ensures forall s :: old(Shows(s)) && s.holder == SubmitterHolds(task, true) ==>
        Shows(Next(s, SubmitPush)) && ok == (Next(s, SubmitPush).unnotified == s.unnotified + 1)
    {
      if stop {
        return false;
      }
      queue := queue + [task];
      return true;
    }

    method WorkLoopSection() returns (d: Decision)
      modifies this
      ensures forall s, i: nat :: old(Shows(s)) && Enabled(s, WorkerCheck(i)) ==>
        Shows(Next(s, WorkerCheck(i))) && Next(s, WorkerCheck(i)).workers[i] == WorkerAfter(d)
    {
      if !(stop || queue != []) {
        return Wait;
      }
      if stop && queue == [] {
        return Leave;
      }
      d := RunTask(queue[0]);
      queue := queue[1..];
    }

    method RequestStop()
      modifies this
      ensures forall s :: old(Shows(s)) && Enabled(s, DestructorStop) ==> Shows(Next(s, DestructorStop))
    {
      stop := true;
    }
  }

  // -------------------------------------------------------------- invariant

  function Runs(w: Worker, t: Task): nat {
    if w == Running(t) then 1 else 0
  }

  /** How many workers are running `t` at the moment. */
  function InProgress(workers: seq<Worker>, t: Task): nat {
    if workers == [] then 0 else Runs(workers[0], t) + InProgress(workers[1..], t)
  }

  /** A worker that will look at the queue again before it sleeps. */
  predicate Awake(w: Worker) {
    w != Asleep && w != Exited
  }

  predicate AnyAwake(workers: seq<Worker>) {
    exists i :: 0 <= i < |workers| && Awake(workers[i])
  }

  /** The mutex has the one holder it says, and the stop flag is the destructor's. */
  ghost predicate MutexOk(s: Pool) {
    && |s.workers| >= 1
    && (forall i: nat :: i < |s.workers| ==> (s.workers[i] == HoldsLock <==> s.holder == WorkerHolds(i)))
    && (s.holder.WorkerHolds? ==> s.holder.i < |s.workers|)
    && (s.stop <==> s.teardown != NotBegun)
    && (s.holder == DestructorHolds ==> s.teardown == NotBegun)
  }

  /** Tasks leave the queue in the order they entered it, and each that was taken is running or has run. */
  ghost predicate TasksOk(s: Pool) {
    && s.pushed == s.taken + s.queue
    && (forall t: Task :: multiset(s.taken)[t] == s.finished[t] + InProgress(s.workers, t))
  }

  /** Nobody sleeps through work or through the end. */
  ghost predicate WakeupsOk(s: Pool) {
    && (s.queue != [] ==> s.unnotified > 0 || s.teardown == Stopped || AnyAwake(s.workers) || AllExited(s.workers))
    && (s.stop && AnyAsleep(s.workers) ==> s.teardown == Stopped)
  }

  ghost predicate ExitsOk(s: Pool) {
    && (forall i :: 0 <= i < |s.workers| && s.workers[i] == Exited ==> s.stop && s.pushedAtStop <= |s.taken|)
    && (AllExited(s.workers) ==> |s.taken| == s.pushedAtExit)
    && (s.stop ==> s.pushedAtStop <= |s.pushed|)
    && (s.teardown == Joined ==> AllExited(s.workers))
  }

  ghost predicate Inv(s: Pool) {
    MutexOk(s) && TasksOk(s) && WakeupsOk(s) && ExitsOk(s)
  }

  lemma {:induction false} InProgressUpdate(workers: seq<Worker>, i: nat, w: Worker, t: Task)
    requires i < |workers|
    ensures InProgress(workers[i := w], t) + Runs(workers[i], t) == InProgress(workers, t) + Runs(w, t)
  {
    if i == 0 {
      assert workers[i := w][1..] == workers[1..];
    } else {
      assert workers[i := w][1..] == workers[1..][i - 1 := w];
      InProgressUpdate(workers[1..], i - 1, w, t);
    }
  }

  lemma {:induction false} NoneInProgress(workers: seq<Worker>, t: Task)
    requires forall i :: 0 <= i < |workers| ==> !workers[i].Running?
    ensures InProgress(workers, t) == 0
  {
    if workers != [] {
      NoneInProgress(workers[1..], t);
    }
  }

  lemma {:induction false} WakeAllInProgress(workers: seq<Worker>, t: Task)
    ensures InProgress(WakeAll(workers), t) == InProgress(workers, t)
  {
    if workers != [] {
      assert WakeAll(workers)[1..] == WakeAll(workers[1..]);
      WakeAllInProgress(workers[1..], t);
    }
  }

  lemma NewPoolOk(n: nat)
    ensures Inv(NewPool(n))
  {
    forall t: Task {
      NoneInProgress(NewPool(n).workers, t);
    }
  }

  /** What a worker's own step does to the count of a task. */
  lemma WorkerKeepsCount(s: Pool, step: Step, t: Task, i: nat)
    requires Enabled(s, step) && multiset(s.taken)[t] == s.finished[t] + InProgress(s.workers, t)
    requires step == WorkerLock(i) || step == WorkerCheck(i) || step == WorkerFinish(i)
    ensures var u := Next(s, step); multiset(u.taken)[t] == u.finished[t] + InProgress(u.workers, t)
  {
    InProgressUpdate(s.workers, i, Next(s, step).workers[i], t);
  }

  lemma StepKeepsCount(s: Pool, step: Step, t: Task)
    requires Enabled(s, step) && multiset(s.taken)[t] == s.finished[t] + InProgress(s.workers, t)
    ensures var u := Next(s, step); multiset(u.taken)[t] == u.finished[t] + InProgress(u.workers, t)
  {
    match step
    case NotifyOne(i) => InProgressUpdate(s.workers, i, Woken, t);
    case WorkerLock(i) => WorkerKeepsCount(s, step, t, i);
    case WorkerCheck(i) => WorkerKeepsCount(s, step, t, i);
    case WorkerFinish(i) => WorkerKeepsCount(s, step, t, i);
    case SpuriousWake(i) => InProgressUpdate(s.workers, i, Woken, t);
    case NotifyAll => WakeAllInProgress(s.workers, t);
    case _ =>
  }

  lemma StepKeepsOrder(s: Pool, step: Step)
    requires Enabled(s, step) && s.pushed == s.taken + s.queue
    ensures var u := Next(s, step); u.pushed == u.taken + u.queue
  {
    if s.queue != [] {
      assert s.queue == [s.queue[0]] + s.queue[1..];
    }
  }

  lemma StepKeepsTasks(s: Pool, step: Step)
    requires TasksOk(s) && Enabled(s, step)
    ensures TasksOk(Next(s, step))
  {
    var u := Next(s, step);
    forall t: Task ensures multiset(u.taken)[t] == u.finished[t] + InProgress(u.workers, t) {
      StepKeepsCount(s, step, t);
    }
    StepKeepsOrder(s, step);
  }

  lemma StepKeepsMutex(s: Pool, step: Step)
    requires Inv(s) && Enabled(s, step)
    ensures MutexOk(Next(s, step))
  {
  }

  lemma StepKeepsWakeups(s: Pool, step: Step)
    requires Inv(s) && Enabled(s, step)
    ensures WakeupsOk(Next(s, step))
  {
    var t := Next(s, step);
    match step
    case NotifyOne(i) => assert Awake(t.workers[i]);
    case NotifyNobody =>
      if !AllExited(s.workers) {
        var i :| 0 <= i < |s.workers| && s.workers[i] != Exited;
        assert Awake(t.workers[i]);
      }
    case WorkerLock(i) => assert Awake(t.workers[i]);
    case WorkerCheck(i) => assert s.queue != [] ==> Awake(t.workers[i]);
    case WorkerFinish(i) => assert Awake(t.workers[i]);
    case SpuriousWake(i) => assert Awake(t.workers[i]);
    case NotifyAll =>
      if !AllExited(s.workers) {
        var i :| 0 <= i < |s.workers| && s.workers[i] != Exited;
        assert Awake(t.workers[i]);
      }
    case _ =>
  }

  lemma StepKeepsExits(s: Pool, step: Step)
    requires Inv(s) && Enabled(s, step)
    ensures ExitsOk(Next(s, step))
  {
    var t := Next(s, step);
    match step
    case NotifyOne(i) => assert t.workers[i] != Exited;
    case WorkerLock(i) => assert t.workers[i] != Exited;
    case WorkerFinish(i) => assert t.workers[i] != Exited;
    case SpuriousWake(i) => assert t.workers[i] != Exited;
    case WorkerCheck(i) => assert t.workers[i] != Exited || s.pushed == s.taken;
    case NotifyAll => assert forall i :: 0 <= i < |s.workers| ==> (t.workers[i] == Exited <==> s.workers[i] == Exited);
    case _ =>
  }

  lemma StepKeepsInv(s: Pool, step: Step)
    requires Inv(s) && Enabled(s, step)
    ensures Inv(Next(s, step))
  {
    StepKeepsMutex(s, step);
    StepKeepsTasks(s, step);
    StepKeepsWakeups(s, step);
    StepKeepsExits(s, step);
  }

  lemma {:induction false} RunKeepsInv(s: Pool, steps: seq<Step>)
    requires Inv(s) && IsRun(s, steps)
    ensures Inv(After(s, steps))
    decreases |steps|
  {
    if steps != [] {
      StepKeepsInv(s, steps[0]);
      RunKeepsInv(Next(s, steps[0]), steps[1..]);
    }
  }

  lemma ReachableInv(s: Pool)
    requires Reachable(s)
    ensures Inv(s)
  {
    var n: nat, steps :| IsRun(NewPool(n), steps) && s == After(NewPool(n), steps);
    NewPoolOk(n);
    RunKeepsInv(NewPool(n), steps);
  }
}
