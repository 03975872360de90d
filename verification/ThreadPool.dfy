/** The worker pool of server/core/thread_pool.h as a step machine. The queue's
    Push and Pop are single steps here; a task is known by the ticket its push
    won, so the queue holds exactly the tickets from `tail` to `head`. */
module ThreadPool {
  import opened Counting

  /** Waiting in acquire; a permit in hand before the test of `stop_`; about to
      pop in the main loop; running a task; the same two places in the drain
      loop; gone. */
  datatype Worker =
    | Waiting
    | Woken
    | Popping
    | Running(task: nat)
    | Draining
    | DrainRunning(task: nat)
    | Exited

  /** Outside Submit; past the test of `stop_`; accepted, permit not released. */
  datatype Submitter = Outside | Checked | Accepted

  datatype Stopper = NotStopped | Releasing | Joining | Stopped

  /** `runs[k]` counts the completed runs of task k. `released` counts the permits
      Stop has given out. `quiet` records whether any Submit stood between its
      test of `stop_` and its push when `stop_` was set. */
  datatype Pool = Pool(
    cap: nat,
    workers: seq<Worker>,
    submitters: seq<Submitter>,
    stopper: Stopper,
    released: nat,
    quiet: bool,
    permits: nat,
    head: nat,
    tail: nat,
    runs: seq<nat>)

  datatype Action = Submit(s: nat) | Work(w: nat) | Stop

  function Init(cap: nat, workers: nat, submitters: nat): Pool {
    Pool(cap, seq(workers, _ => Waiting), seq(submitters, _ => Outside), NotStopped, 0, false, 0, 0, 0, [])
  }

  predicate StopSet(p: Pool) {
    !p.stopper.NotStopped?
  }

  function StepSubmit(p: Pool, s: nat): Pool
    requires s < |p.submitters|
  {
    match p.submitters[s]
    case Outside =>
      if StopSet(p) then p else p.(submitters := p.submitters[s := Checked])
    case Checked =>
      if p.head < p.tail + p.cap then
        p.(submitters := p.submitters[s := Accepted], head := p.head + 1, runs := p.runs + [0])
      else
        p.(submitters := p.submitters[s := Outside])
    case Accepted =>
      p.(submitters := p.submitters[s := Outside], permits := p.permits + 1)
  }

  predicate RunsTask(w: Worker, k: int) {
    (w.Running? || w.DrainRunning?) && w.task == k
  }

  function SetWorker(p: Pool, w: nat, pc: Worker): Pool
    requires w < |p.workers|
  {
    p.(workers := p.workers[w := pc])
  }

  function StepWork(p: Pool, w: nat): Pool
    requires w < |p.workers|
    requires (p.workers[w].Running? || p.workers[w].DrainRunning?) ==> p.workers[w].task < |p.runs|
  {
    match p.workers[w]
    case Waiting =>
      if p.permits > 0 then SetWorker(p, w, Woken).(permits := p.permits - 1) else p
    case Woken => SetWorker(p, w, if StopSet(p) then Draining else Popping)
    case Popping =>
      if p.tail < p.head then SetWorker(p, w, Running(p.tail)).(tail := p.tail + 1)
      else SetWorker(p, w, Waiting)
    case Running(k) => SetWorker(p, w, Waiting).(runs := p.runs[k := p.runs[k] + 1])
    case Draining =>
      if p.tail < p.head then SetWorker(p, w, DrainRunning(p.tail)).(tail := p.tail + 1)
      else SetWorker(p, w, Exited)
    case DrainRunning(k) => SetWorker(p, w, Draining).(runs := p.runs[k := p.runs[k] + 1])
    case Exited => p
  }

  function StepStop(p: Pool): Pool {
    match p.stopper
    case NotStopped =>
      p.(stopper := Releasing, quiet := forall i :: 0 <= i < |p.submitters| ==> !p.submitters[i].Checked?)
    case Releasing =>
      if p.released < |p.workers| then p.(released := p.released + 1, permits := p.permits + 1)
      else p.(stopper := Joining)
    case Joining =>
      if forall i :: 0 <= i < |p.workers| ==> p.workers[i].Exited? then p.(stopper := Stopped) else p
    case Stopped => p
  }

  predicate TasksKnown(p: Pool) {
    forall w :: 0 <= w < |p.workers| && (p.workers[w].Running? || p.workers[w].DrainRunning?) ==>
      p.workers[w].task < |p.runs|
  }

  function Step(p: Pool, a: Action): Pool
    requires TasksKnown(p)
  {
    match a
    case Submit(s) => if s < |p.submitters| then StepSubmit(p, s) else p
    case Work(w) => if w < |p.workers| then StepWork(p, w) else p
    case Stop => StepStop(p)
  }

  // ------------------------------------------------------------ invariant

  predicate HasPermit(w: Worker) { w.Woken? || w.Popping? }
  predicate IsPopping(w: Worker) { w.Popping? }
  predicate IsAccepted(s: Submitter) { s.Accepted? }
  predicate InFlight(s: Submitter) { !s.Outside? }

  predicate Left(w: Worker) { w.Draining? || w.DrainRunning? || w.Exited? }

  ghost predicate SomeLeft(p: Pool) {
    exists w :: 0 <= w < |p.workers| && Left(p.workers[w])
  }

  /** Until a worker leaves the main loop, queued tasks and permits balance. */
  ghost predicate Balanced(p: Pool) {
    && p.head - p.tail + p.released ==
       p.permits + Count(p.workers, HasPermit) + Count(p.submitters, IsAccepted)
    && Count(p.workers, IsPopping) <= p.head - p.tail
  }

  ghost predicate PermitsBounded(p: Pool) {
    p.permits + Count(p.submitters, InFlight) + (|p.workers| - p.released)
      <= p.cap + |p.workers| + |p.submitters|
  }

  ghost predicate Busy(p: Pool, k: nat) {
    exists w :: 0 <= w < |p.workers| && RunsTask(p.workers[w], k)
  }

  /** Task k is untouched before its pop, and afterwards is either being run by
      one worker or has been run once. */
  ghost predicate TaskOk(p: Pool, k: nat)
    requires |p.runs| == p.head && k < p.head
  {
    && p.runs[k] == (if k < p.tail && !Busy(p, k) then 1 else 0)
    && (k >= p.tail ==> !Busy(p, k))
  }

  ghost predicate OneRunner(p: Pool) {
    forall v, w, k {:trigger RunsTask(p.workers[v], k), RunsTask(p.workers[w], k)} ::
      0 <= v < w < |p.workers| ==> !(RunsTask(p.workers[v], k) && RunsTask(p.workers[w], k))
  }

  ghost predicate Drained(p: Pool) {
    StopSet(p) && p.quiet ==>
      && (forall i :: 0 <= i < |p.submitters| ==> !p.submitters[i].Checked?)
      && ((exists w :: 0 <= w < |p.workers| && p.workers[w].Exited?) ==> p.head == p.tail)
  }

  ghost predicate Inv(p: Pool) {
    && p.tail <= p.head <= p.tail + p.cap && |p.runs| == p.head
    && p.released <= |p.workers|
    && (p.workers == [] ==> p.tail == 0)
    && (!StopSet(p) ==> p.released == 0 && !SomeLeft(p))
    && (!SomeLeft(p) ==> Balanced(p))
    && PermitsBounded(p)
    && (forall k: nat :: k < p.head ==> TaskOk(p, k))
    && (forall w :: 0 <= w < |p.workers| && (p.workers[w].Running? || p.workers[w].DrainRunning?) ==>
          p.workers[w].task < p.tail)
    && OneRunner(p)
    && Drained(p)
    && (p.stopper.Stopped? ==> forall w :: 0 <= w < |p.workers| ==> p.workers[w].Exited?)
  }

  lemma InitInv(cap: nat, workers: nat, submitters: nat)
    ensures Inv(Init(cap, workers, submitters))
  {
    var p := Init(cap, workers, submitters);
    CountNone(p.workers, HasPermit);
    CountNone(p.workers, IsPopping);
    CountNone(p.submitters, IsAccepted);
    CountNone(p.submitters, InFlight);
  }

  /** What concerns the workers alone depends on the workers alone. */
  lemma SameWorkers(p: Pool, r: Pool)
    requires r.workers == p.workers
    ensures SomeLeft(r) == SomeLeft(p) && OneRunner(r) == OneRunner(p)
    ensures forall k: nat :: Busy(r, k) == Busy(p, k)
    ensures !SomeLeft(p) ==> forall w :: 0 <= w < |p.workers| ==> !p.workers[w].Exited?
  {
  }

  lemma SubmitBalance(p: Pool, s: nat)
    requires Inv(p) && s < |p.submitters|
    ensures var r := StepSubmit(p, s);
      PermitsBounded(r) && (!SomeLeft(p) ==> Balanced(r))
  {
    var r := StepSubmit(p, s);
    hide Count, SomeLeft, TaskOk, OneRunner, Drained;
    assert r.submitters == p.submitters[s := r.submitters[s]];
    CountUpdate(p.submitters, s, r.submitters[s], IsAccepted);
    CountUpdate(p.submitters, s, r.submitters[s], InFlight);
  }

  lemma SubmitTask(p: Pool, s: nat, k: nat)
    requires Inv(p) && s < |p.submitters| && k < StepSubmit(p, s).head
    ensures var r := StepSubmit(p, s); |r.runs| == r.head && TaskOk(r, k)
  {
    hide Count, SomeLeft, Balanced, PermitsBounded, OneRunner, Drained;
    SameWorkers(p, StepSubmit(p, s));
    if k < p.head {
      assert TaskOk(p, k);
    }
  }

  lemma SubmitInv(p: Pool, s: nat)
    requires Inv(p) && s < |p.submitters|
    ensures Inv(StepSubmit(p, s))
  {
    hide Count, SomeLeft, Balanced, PermitsBounded, OneRunner, TaskOk;
    var r := StepSubmit(p, s);
    SameWorkers(p, r);
    SubmitBalance(p, s);
    forall k: nat | k < r.head ensures TaskOk(r, k) {
      SubmitTask(p, s, k);
    }
  }

  lemma StopTask(p: Pool, k: nat)
    requires Inv(p) && k < p.head
    ensures TaskOk(StepStop(p), k)
  {
    hide Count, SomeLeft, Balanced, PermitsBounded, OneRunner, Drained;
    SameWorkers(p, StepStop(p));
    assert TaskOk(p, k);
  }

  lemma StopInv(p: Pool)
    requires Inv(p)
    ensures Inv(StepStop(p))
  {
    hide Count, SomeLeft, OneRunner, TaskOk;
    var r := StepStop(p);
    SameWorkers(p, r);
    forall k: nat | k < r.head ensures TaskOk(r, k) {
      StopTask(p, k);
    }
  }

  lemma StaysInMainLoop(p: Pool, w: nat)
    requires Inv(p) && w < |p.workers| && !SomeLeft(StepWork(p, w))
    ensures !SomeLeft(p)
  {
    hide Count, Balanced, PermitsBounded, TaskOk, OneRunner, Drained;
    var r := StepWork(p, w);
    forall v | 0 <= v < |p.workers| ensures !Left(p.workers[v]) {
      assert !Left(r.workers[v]) && !Left(r.workers[w]);
    }
  }

  lemma WorkBalance(p: Pool, w: nat)
    requires Inv(p) && w < |p.workers|
    ensures var r := StepWork(p, w); PermitsBounded(r) && (!SomeLeft(r) ==> Balanced(r))
  {
    hide Count, SomeLeft, TaskOk, OneRunner, Drained;
    var r := StepWork(p, w);
    if !SomeLeft(r) {
      StaysInMainLoop(p, w);
      LeavingShows(r, w);
      CountUpdate(p.workers, w, r.workers[w], HasPermit);
      CountUpdate(p.workers, w, r.workers[w], IsPopping);
      if p.workers[w].Woken? {
        var rest := p.workers[w := Waiting];
        CountUpdate(p.workers, w, Waiting, HasPermit);
        CountUpdate(p.workers, w, Waiting, IsPopping);
        CountImplies(rest, IsPopping, HasPermit);
      }
    }
  }

  lemma LeavingShows(p: Pool, w: nat)
    requires w < |p.workers| && !SomeLeft(p)
    ensures !Left(p.workers[w])
  {
  }

  lemma WorkOneRunner(p: Pool, w: nat)
    requires Inv(p) && w < |p.workers|
    ensures OneRunner(StepWork(p, w))
  {
    hide Count, SomeLeft, Balanced, TaskOk, Drained, PermitsBounded, Busy;
    var r := StepWork(p, w);
    forall v, u, k | 0 <= v < u < |r.workers|
      ensures !(RunsTask(r.workers[v], k) && RunsTask(r.workers[u], k))
    {
      assert !(RunsTask(p.workers[v], k) && RunsTask(p.workers[u], k));
    }
  }

  /** Only the stepping worker's own task can start or stop being run. */
  lemma WorkBusy(p: Pool, w: nat, k: nat)
    requires Inv(p) && w < |p.workers|
    ensures var r := StepWork(p, w);
      Busy(r, k) <==> RunsTask(r.workers[w], k) || (Busy(p, k) && !RunsTask(p.workers[w], k))
  {
    hide Count, SomeLeft, Balanced, TaskOk, Drained, PermitsBounded;
    var r := StepWork(p, w);
    if Busy(p, k) && !RunsTask(p.workers[w], k) {
      var v :| 0 <= v < |p.workers| && RunsTask(p.workers[v], k);
      assert RunsTask(r.workers[v], k);
    }
    if Busy(r, k) && !RunsTask(r.workers[w], k) {
      var v :| 0 <= v < |r.workers| && RunsTask(r.workers[v], k);
      assert RunsTask(p.workers[v], k);
      assert !(RunsTask(p.workers[v], k) && RunsTask(p.workers[w], k));
    }
  }

  lemma WorkTask(p: Pool, w: nat, k: nat)
    requires Inv(p) && w < |p.workers| && k < p.head
    ensures var r := StepWork(p, w); |r.runs| == r.head == p.head && TaskOk(r, k)
  {
    hide Count, SomeLeft, Balanced, Drained, PermitsBounded, OneRunner, Busy;
    WorkBusy(p, w, k);
    RunnerBusy(p, w, k);
    assert TaskOk(p, k);
  }

  lemma RunnerBusy(p: Pool, w: nat, k: nat)
    requires w < |p.workers|
    ensures RunsTask(p.workers[w], k) ==> Busy(p, k)
  {
  }

  /** Nobody leaves the main loop before `stop_` is set. */
  lemma NobodyLeavesEarly(p: Pool, w: nat)
    requires Inv(p) && w < |p.workers| && !StopSet(p)
    ensures !SomeLeft(StepWork(p, w))
  {
    hide Count, Balanced, TaskOk, OneRunner, PermitsBounded, Drained;
    var r := StepWork(p, w);
    forall v | 0 <= v < |r.workers| ensures !Left(r.workers[v]) {
      assert !Left(p.workers[v]) && !Left(p.workers[w]);
    }
  }

  lemma WorkDrained(p: Pool, w: nat)
    requires Inv(p) && w < |p.workers|
    ensures Drained(StepWork(p, w))
  {
    hide Count, SomeLeft, Balanced, PermitsBounded, TaskOk, OneRunner;
    assert Drained(p);
  }

  lemma WorkInv(p: Pool, w: nat)
    requires Inv(p) && w < |p.workers|
    ensures Inv(StepWork(p, w))
  {
    hide Count, SomeLeft, Balanced, PermitsBounded, TaskOk, OneRunner, Bit, Drained;
    var r := StepWork(p, w);
    WorkDrained(p, w);
    WorkBalance(p, w);
    WorkOneRunner(p, w);
    forall k: nat | k < r.head ensures TaskOk(r, k) {
      WorkTask(p, w, k);
    }
    if !StopSet(p) {
      NobodyLeavesEarly(p, w);
    }
  }

  lemma StepInv(p: Pool, a: Action)
    requires Inv(p)
    ensures TasksKnown(p) && Inv(Step(p, a))
  {
    match a
    case Submit(s) => if s < |p.submitters| { SubmitInv(p, s); }
    case Work(w) => if w < |p.workers| { WorkInv(p, w); }
    case Stop => StopInv(p);
  }

  /** Any schedule from a state of the machine. */
  ghost function Run(p: Pool, acts: seq<Action>): (r: Pool)
    requires Inv(p)
    ensures Inv(r)
    decreases |acts|
  {
    if acts == [] then p
    else
      StepInv(p, acts[0]);
      Run(Step(p, acts[0]), acts[1..])
  }

  ghost predicate Reachable(p: Pool) {
    exists cap: nat, n: nat, m: nat, acts: seq<Action> ::
      Inv(Init(cap, n, m)) && p == Run(Init(cap, n, m), acts)
  }

  // -------------------------------------------------------------- results

  /** Until Stop begins, every permit stands for a queued task, so there are
      never more permits than tasks, nor more than the capacity. */
  lemma PermitsMatchTasks(p: Pool)
    requires Reachable(p) && !StopSet(p)
    ensures p.permits <= p.head - p.tail <= p.cap
  {
  }

  /** Until the first worker leaves its main loop the permits exceed the queued
      tasks by no more than what Stop has released, and a worker about to pop in
      the main loop finds a task: its permit is never spent in vain. */
  lemma PermitFindsTask(p: Pool)
    requires Reachable(p) && !SomeLeft(p)
    ensures p.permits <= p.head - p.tail + p.released
    ensures forall w :: 0 <= w < |p.workers| && p.workers[w].Popping? ==> p.tail < p.head
  {
    forall w | 0 <= w < |p.workers| && p.workers[w].Popping? ensures p.tail < p.head {
      CountUpdate(p.workers, w, Waiting, IsPopping);
    }
  }

  /** The semaphore's limit is out of reach at every moment, shutdown included,
      when capacity, workers and submitting threads together stay below it. */
  lemma SemaphoreCannotOverflow(p: Pool, max: nat)
    requires Reachable(p) && p.cap + |p.workers| + |p.submitters| <= max
    ensures p.permits <= max
  {
  }

  /** No task runs twice, and no two workers ever run the same task. */
  lemma NeverTwice(p: Pool, k: nat)
    requires Reachable(p) && k < |p.runs|
    ensures p.runs[k] <= 1
    ensures p.runs[k] == 1 ==> !Busy(p, k)
    ensures forall v, w :: 0 <= v < w < |p.workers| ==> !(RunsTask(p.workers[v], k) && RunsTask(p.workers[w], k))
  {
    assert TaskOk(p, k);
    assert OneRunner(p);
  }

  /** When Stop returns, every accepted task has run exactly once, provided the
      pool has a worker and no Submit was between its test and its push when
      `stop_` was set. */
  lemma AllRunWhenStopReturns(p: Pool)
    requires Reachable(p) && p.stopper.Stopped? && p.quiet && |p.workers| >= 1
    ensures forall k: nat :: k < |p.runs| ==> p.runs[k] == 1
    ensures forall i :: 0 <= i < |p.submitters| ==> !p.submitters[i].Checked?
  {
    assert p.workers[0].Exited?;
    forall k: nat | k < |p.runs| ensures p.runs[k] == 1 {
      assert TaskOk(p, k);
    }
  }

  lemma StepAfterStop(p: Pool, a: Action)
    requires Inv(p) && p.stopper.Stopped?
    ensures TasksKnown(p) && Inv(Step(p, a))
    ensures var r := Step(p, a);
      && p.runs <= r.runs && (forall k: nat :: |p.runs| <= k < |r.runs| ==> r.runs[k] == 0)
      && r.stopper.Stopped? && r.workers == p.workers && r.quiet == p.quiet
  {
    StepInv(p, a);
    hide Inv;
    assert a.Work? && a.w < |p.workers| ==> p.workers[a.w].Exited? by { StoppedMeansExited(p); }
  }

  lemma StoppedMeansExited(p: Pool)
    requires Inv(p) && p.stopper.Stopped?
    ensures forall w :: 0 <= w < |p.workers| ==> p.workers[w].Exited?
  {
  }

  /** Once Stop has returned no task ever runs again, also not one accepted
      later. */
  lemma {:induction false} NothingRunsAfterStop(p: Pool, acts: seq<Action>)
    requires Inv(p) && p.stopper.Stopped?
    ensures var r := Run(p, acts); p.runs <= r.runs && r.stopper.Stopped?
    ensures var r := Run(p, acts); forall k: nat :: |p.runs| <= k < |r.runs| ==> r.runs[k] == 0
    decreases |acts|
  {
    hide Inv;
    if acts != [] {
      StepAfterStop(p, acts[0]);
      NothingRunsAfterStop(Step(p, acts[0]), acts[1..]);
    }
  }

  lemma {:induction false} RunAppend(p: Pool, acts: seq<Action>, a: Action)
    requires Inv(p)
    ensures TasksKnown(Run(p, acts)) && Run(p, acts + [a]) == Step(Run(p, acts), a)
    decreases |acts|
  {
    StepInv(Run(p, acts), a);
    hide Inv;
    if acts == [] {
      assert [] + [a] == [a];
      assert Run(p, [a]) == Run(Step(p, a), [a][1..]);
    } else {
      StepInv(p, acts[0]);
      RunAppend(Step(p, acts[0]), acts[1..], a);
      assert (acts + [a])[1..] == acts[1..] + [a];
    }
  }

  // ---------------------------------- when Stop leaves no accepted task behind

  lemma {:induction false} RunConcat(p: Pool, acts: seq<Action>, more: seq<Action>)
    requires Inv(p)
    ensures Run(p, acts + more) == Run(Run(p, acts), more)
    decreases |acts|
  {
    hide Inv, Step, TasksKnown;
    if acts == [] {
      assert [] + more == more;
    } else {
      StepInv(p, acts[0]);
      RunConcat(Step(p, acts[0]), acts[1..], more);
      assert (acts + more)[1..] == acts[1..] + more;
    }
  }

  lemma RunOne(p: Pool, a: Action)
    requires Inv(p)
    ensures TasksKnown(p) && Run(p, [a]) == Step(p, a)
  {
    StepInv(p, a);
    hide Inv;
    assert Run(Step(p, a), [a][1..]) == Step(p, a);
  }

  ghost predicate NobodyChecked(p: Pool) {
    forall i :: 0 <= i < |p.submitters| ==> !p.submitters[i].Checked?
  }

  ghost predicate AllRun(p: Pool) {
    forall k: nat :: k < |p.runs| ==> p.runs[k] == 1
  }

  /** What can be seen when Stop is called: no Submit is under way between its
      test and its push, and there is a worker or nothing to run. */
  ghost predicate StopIsSafe(p: Pool) {
    NobodyChecked(p) && (|p.workers| >= 1 || |p.runs| == 0)
  }

  lemma StepAcceptsNothing(p: Pool, a: Action)
    requires Inv(p) && StopSet(p) && NobodyChecked(p) && TasksKnown(p)
    ensures var r := Step(p, a);
      StopSet(r) && NobodyChecked(r) && |r.runs| == |p.runs| && r.quiet == p.quiet && |r.workers| == |p.workers|
  {
    hide Count, Balanced, PermitsBounded, TaskOk, OneRunner, Drained, SomeLeft;
  }

  /** Once `stop_` is set with nobody past the test, no further task is
      accepted. */
  lemma {:induction false} NoMoreAccepted(p: Pool, acts: seq<Action>)
    requires Inv(p) && StopSet(p) && NobodyChecked(p)
    ensures var r := Run(p, acts);
      |r.runs| == |p.runs| && r.quiet == p.quiet && |r.workers| == |p.workers|
    decreases |acts|
  {
    hide Inv, StopSet, NobodyChecked, Step;
    if acts != [] {
      StepInv(p, acts[0]);
      StepAcceptsNothing(p, acts[0]);
      NoMoreAccepted(Step(p, acts[0]), acts[1..]);
    }
  }

  lemma QuietRuns(p: Pool)
    requires Inv(p) && p.stopper.Stopped? && p.quiet && |p.workers| >= 1
    ensures AllRun(p)
  {
    hide Count, Balanced, PermitsBounded, OneRunner, SomeLeft;
    assert p.workers[0].Exited?;
    forall k: nat | k < |p.runs| ensures p.runs[k] == 1 {
      assert TaskOk(p, k);
    }
  }

  predicate InMainLoop(w: Worker) { w.Waiting? || w.Popping? || w.Running? }

  /** How far a worker is from its exit once `stop_` is set. */
  function Distance(w: Worker): nat {
    match w
    case Popping => 5
    case Running(_) => 4
    case Waiting => 3
    case Woken => 2
    case DrainRunning(_) => 2
    case Draining => 1
    case Exited => 0
  }

  /** What a schedule of worker w alone leaves as it was. */
  ghost predicate OthersKept(p: Pool, r: Pool, w: nat) {
    && |r.workers| == |p.workers|
    && (forall v :: 0 <= v < |p.workers| && v != w ==> r.workers[v] == p.workers[v])
    && r.submitters == p.submitters && r.stopper == p.stopper
    && r.head == p.head && r.cap == p.cap
  }

  lemma WorkCloser(p: Pool, w: nat)
    requires Inv(p) && StopSet(p) && w < |p.workers| && !p.workers[w].Exited?
    requires InMainLoop(p.workers[w]) ==> p.permits >= 1
    ensures var r := StepWork(p, w);
      && OthersKept(p, r, w) && r.tail <= r.head
      && (r.head - r.tail < p.head - p.tail
          || (r.tail == p.tail && Distance(r.workers[w]) < Distance(p.workers[w])))
      && (r.workers[w].Exited? ==> r.head == r.tail)
      && (InMainLoop(r.workers[w]) ==> InMainLoop(p.workers[w]))
      && r.permits + Bit(InMainLoop(p.workers[w])) >= p.permits + Bit(InMainLoop(r.workers[w]))
  {
    hide Count, Balanced, PermitsBounded, TaskOk, OneRunner, Drained, SomeLeft;
  }

  /** Scheduled alone with a permit to take, a worker drains the queue and
      leaves, whatever it was doing. */
  lemma {:induction false} DriveOut(p: Pool, w: nat) returns (acts: seq<Action>)
    requires Inv(p) && StopSet(p) && w < |p.workers| && p.tail <= p.head
    requires InMainLoop(p.workers[w]) ==> p.permits >= 1
    ensures var r := Run(p, acts);
      && OthersKept(p, r, w) && r.workers[w].Exited?
      && (p.workers[w].Exited? || r.head == r.tail)
      && (p.head == p.tail ==> r.head == r.tail)
      && r.permits + 1 >= p.permits + Bit(!InMainLoop(p.workers[w]))
    decreases p.head - p.tail, Distance(p.workers[w])
  {
    if p.workers[w].Exited? {
      acts := [];
      return;
    }
    var q := StepWork(p, w);
    WorkCloser(p, w);
    StepInv(p, Work(w));
    hide Inv;
    var rest := DriveOut(q, w);
    acts := [Work(w)] + rest;
    assert acts[1..] == rest;
  }

  lemma Basics(p: Pool)
    requires Inv(p)
    ensures p.tail <= p.head <= p.tail + p.cap && |p.runs| == p.head && p.released <= |p.workers|
    ensures |p.workers| == 0 ==> p.tail == 0
    ensures !StopSet(p) ==> p.released == 0 && forall w :: 0 <= w < |p.workers| ==> !p.workers[w].Exited?
    ensures forall k: nat :: k < p.head && k >= p.tail ==> p.runs[k] == 0
  {
    hide Count, Balanced, PermitsBounded, OneRunner, Drained;
    forall k: nat | k < p.head && k >= p.tail ensures p.runs[k] == 0 {
      assert TaskOk(p, k);
    }
  }

  /** Scheduled alone, Stop gives out one permit for each worker and goes on to
      join them. */
  lemma {:induction false} ReleaseAll(p: Pool) returns (acts: seq<Action>)
    requires Inv(p) && p.stopper.Releasing? && p.released <= |p.workers|
    ensures var r := Run(p, acts);
      && r == p.(stopper := Joining, released := |p.workers|, permits := p.permits + |p.workers| - p.released)
    decreases |p.workers| - p.released
  {
    StepInv(p, Stop);
    hide Inv;
    if p.released < |p.workers| {
      var rest := ReleaseAll(Step(p, Stop));
      acts := [Stop] + rest;
      assert acts[1..] == rest;
    } else {
      acts := [Stop];
      RunOne(p, Stop);
    }
  }

  /** Workers from number w on are driven out one after the other. */
  lemma {:induction false} DriveAllOut(p: Pool, w: nat) returns (acts: seq<Action>)
    requires Inv(p) && p.stopper.Joining?
    requires w <= |p.workers| && p.permits >= |p.workers| - w
    requires forall v :: 0 <= v < w ==> p.workers[v].Exited?
    requires forall v :: w <= v < |p.workers| ==> !p.workers[v].Exited?
    requires w > 0 ==> p.head == p.tail
    ensures var r := Run(p, acts);
      && r.stopper.Joining? && r.submitters == p.submitters && r.cap == p.cap && r.head == p.head
      && |r.workers| == |p.workers| && (forall v :: 0 <= v < |r.workers| ==> r.workers[v].Exited?)
      && (|p.workers| >= 1 ==> r.head == r.tail)
    decreases |p.workers| - w
  {
    Basics(p);
    hide Inv;
    if w == |p.workers| {
      acts := [];
      return;
    }
    var first := DriveOut(p, w);
    var q := Run(p, first);
    var rest := DriveAllOut(q, w + 1);
    acts := first + rest;
    RunConcat(p, first, rest);
  }

  /** From the call of Stop some schedule lets it return, with the queue empty
      if there is a worker and no Submit moved meanwhile. */
  lemma StopReturns(p: Pool) returns (acts: seq<Action>)
    requires Inv(p) && p.stopper.NotStopped?
    ensures var r := Run(p, acts);
      && r.stopper.Stopped? && r.submitters == p.submitters && r.cap == p.cap && r.head == p.head
      && |r.workers| == |p.workers| && (|p.workers| >= 1 ==> r.head == r.tail)
      && |acts| >= 1 && acts[0] == Stop
  {
    RunOne(p, Stop);
    StepInv(p, Stop);
    Basics(p);
    hide Inv;
    var p1 := Step(p, Stop);
    var release := ReleaseAll(p1);
    var p2 := Run(p1, release);
    var drive := DriveAllOut(p2, 0);
    var p3 := Run(p2, drive);
    RunOne(p3, Stop);
    RunConcat(p2, drive, [Stop]);
    RunConcat(p1, release, drive + [Stop]);
    acts := [Stop] + (release + (drive + [Stop]));
    RunConcat(p, [Stop], release + (drive + [Stop]));
  }

  ghost predicate StopReturned(p: Pool, acts: seq<Action>)
    requires Inv(p)
  {
    |acts| >= 1 && acts[0] == Stop && Run(p, acts).stopper.Stopped?
  }

  lemma SafeRuns(p: Pool, acts: seq<Action>)
    requires Inv(p) && p.stopper.NotStopped? && StopIsSafe(p) && StopReturned(p, acts)
    ensures AllRun(Run(p, acts))
  {
    StepInv(p, Stop);
    Basics(p);
    hide Inv;
    NoMoreAccepted(Step(p, Stop), acts[1..]);
    if |p.workers| >= 1 {
      QuietRuns(Run(p, acts));
    } else {
      Basics(Run(p, acts));
    }
  }

  /** Otherwise an accepted task can be left behind for good: some schedule
      beginning with Stop lets it return, and a task is never run however the
      schedule goes on. */
  lemma ProvisosNeeded(p: Pool) returns (acts: seq<Action>, k: nat)
    requires Reachable(p) && p.stopper.NotStopped? && p.cap >= 1 && !StopIsSafe(p)
    ensures Inv(p) && StopReturned(p, acts) && k < |Run(p, acts).runs|
    ensures forall more :: var r := Run(p, acts + more); r.stopper.Stopped? && k < |r.runs| && r.runs[k] == 0
  {
    ReachableInv(p);
    acts := StopReturns(p);
    var r := Run(p, acts);
    Basics(p);
    Basics(r);
    hide Inv;
    k := r.tail;
    if |r.runs| == r.tail {
      var i :| 0 <= i < |p.submitters| && p.submitters[i].Checked?;
      RunOne(r, Submit(i));
      RunConcat(p, acts, [Submit(i)]);
      acts := acts + [Submit(i)];
    }
    var left := Run(p, acts);
    forall more: seq<Action>
      ensures var s := Run(p, acts + more); s.stopper.Stopped? && k < |s.runs| && s.runs[k] == 0
    {
      RunConcat(p, acts, more);
      NothingRunsAfterStop(left, more);
    }
  }

  lemma ReachableInv(p: Pool)
    requires Reachable(p)
    ensures Inv(p)
  {
    hide Inv;
  }

  /** The exact condition. The call of Stop that sets the flag, made in a reachable
      state, leaves no accepted task unrun whenever and however it returns, if and
      only if it is safe in the sense of StopIsSafe. The queue must have room for a
      task, or none could be left behind; the source's queue has room for two. */
  lemma AllRunIff(p: Pool)
    requires Reachable(p) && p.stopper.NotStopped? && p.cap >= 1
    ensures Inv(p)
    ensures StopIsSafe(p) <==>
      forall acts: seq<Action> :: StopReturned(p, acts) ==> AllRun(Run(p, acts))
  {
    ReachableInv(p);
    if StopIsSafe(p) {
      forall acts: seq<Action> | StopReturned(p, acts) ensures AllRun(Run(p, acts)) {
        SafeRuns(p, acts);
      }
    } else {
      hide Inv;
      var acts, k := ProvisosNeeded(p);
      assert acts + [] == acts;
      assert StopReturned(p, acts) && !AllRun(Run(p, acts));
    }
  }

  /** A further call of Stop finds the flag set and returns at once. Every accepted
      task has run by then exactly if the queue is empty and no worker runs one. */
  lemma SecondStopIff(p: Pool)
    requires Reachable(p) && StopSet(p)
    ensures AllRun(p) <==>
      && p.head == p.tail
      && forall w: nat :: w < |p.workers| ==> !p.workers[w].Running? && !p.workers[w].DrainRunning?
  {
    ReachableInv(p);
    hide Reachable, Count, Balanced, PermitsBounded, OneRunner, Drained, SomeLeft;
    if w: nat :| w < |p.workers| && (p.workers[w].Running? || p.workers[w].DrainRunning?) {
      assert RunsTask(p.workers[w], p.workers[w].task);
      assert TaskOk(p, p.workers[w].task);
      assert p.runs[p.workers[w].task] == 0;
    } else if p.tail < p.head {
      assert TaskOk(p, p.tail);
      assert p.runs[p.tail] == 0;
    } else {
      forall k: nat | k < |p.runs| ensures p.runs[k] == 1 {
        assert TaskOk(p, k);
      }
    }
  }

  // ------------------------------------------------------ what Submit does

  /** A submitter past its test is accepted exactly when the queue has room; a task
      that is accepted is queued behind all others. */
  lemma SubmitAcceptsIff(p: Pool, s: nat)
    requires Reachable(p) && s < |p.submitters| && p.submitters[s].Checked?
    ensures TasksKnown(p)
    ensures var r := Step(p, Submit(s));
      if p.head - p.tail == p.cap
      then r == p.(submitters := p.submitters[s := Outside])
      else |r.runs| == |p.runs| + 1 && r.head == p.head + 1 && r.submitters[s].Accepted? && r.tail == p.tail
  {
    ReachableInv(p);
    Basics(p);
    StepInv(p, Submit(s));
    hide Inv, Reachable;
  }

  /** How far a worker is from its next pop, before `stop_` is set. */
  function ToPop(w: Worker): nat {
    match w
    case Running(_) => 4
    case Waiting => 3
    case Woken => 2
    case _ => 1
  }

  function AllToPop(ws: seq<Worker>): nat {
    if ws == [] then 0 else AllToPop(ws[..|ws| - 1]) + ToPop(ws[|ws| - 1])
  }

  lemma {:induction false} ToPopUpdate(ws: seq<Worker>, w: nat, pc: Worker)
    requires w < |ws|
    ensures AllToPop(ws[w := pc]) + ToPop(ws[w]) == AllToPop(ws) + ToPop(pc)
  {
    hide ToPop;
    var n := |ws| - 1;
    if w == n {
      assert ws[w := pc][..n] == ws[..n];
    } else {
      ToPopUpdate(ws[..n], w, pc);
      assert ws[w := pc][..n] == ws[..n][w := pc];
    }
  }

  /** Some worker that has a permit or a task moves on. */
  lemma WorkerMoves(p: Pool, w: nat)
    requires Inv(p) && !StopSet(p) && w < |p.workers| && !p.workers[w].Waiting?
    ensures var r := StepWork(p, w);
      && r.head == p.head && r.stopper == p.stopper && |r.workers| == |p.workers| && r.submitters == p.submitters
      && r.tail <= r.head
      && (r.head - r.tail < p.head - p.tail || (r.tail == p.tail && AllToPop(r.workers) < AllToPop(p.workers)))
  {
    hide Count, PermitsBounded, TaskOk, OneRunner, Drained;
    assert !Left(p.workers[w]);
    CountUpdate(p.workers, w, Waiting, IsPopping);
    ToPopUpdate(p.workers, w, StepWork(p, w).workers[w]);
  }

  /** With nobody under way a queued task has its permit. */
  lemma PermitWaits(p: Pool, k: nat)
    requires Inv(p) && !StopSet(p) && k < p.head && p.runs[k] != 1
    requires forall w :: 0 <= w < |p.workers| ==> p.workers[w].Waiting?
    requires forall i :: 0 <= i < |p.submitters| ==> !p.submitters[i].Accepted?
    ensures p.permits > 0
  {
    hide PermitsBounded, OneRunner, Drained;
    CountNone(p.workers, HasPermit);
    CountNone(p.submitters, IsAccepted);
    assert TaskOk(p, k);
    assert !Busy(p, k);
  }

  lemma WorkerWakes(p: Pool, w: nat)
    requires w < |p.workers| && p.workers[w].Waiting? && p.permits > 0
    ensures var r := StepWork(p, w);
      && r.head == p.head && r.tail == p.tail && r.stopper == p.stopper && |r.workers| == |p.workers|
      && r.submitters == p.submitters && AllToPop(r.workers) < AllToPop(p.workers)
  {
    ToPopUpdate(p.workers, w, Woken);
  }

  lemma PermitGiven(p: Pool, i: nat)
    requires i < |p.submitters| && p.submitters[i].Accepted?
    ensures var r := StepSubmit(p, i);
      && r.head == p.head && r.tail == p.tail && r.stopper == p.stopper && r.workers == p.workers
      && Count(r.submitters, IsAccepted) < Count(p.submitters, IsAccepted)
  {
    CountUpdate(p.submitters, i, Outside, IsAccepted);
  }

  predicate NoStop(acts: seq<Action>) {
    forall i :: 0 <= i < |acts| ==> !acts[i].Stop?
  }

  /** Before Stop an accepted task is never stuck: from every state some schedule of
      the workers and of submitters already accepted completes its run. */
  lemma {:induction false} RunsBeforeStop(p: Pool, k: nat) returns (acts: seq<Action>)
    requires Inv(p) && !StopSet(p) && |p.workers| >= 1 && k < p.head && p.tail <= p.head && |p.runs| == p.head
    ensures NoStop(acts)
    ensures var r := Run(p, acts); !StopSet(r) && k < |r.runs| && r.runs[k] == 1
    decreases p.head - p.tail, Count(p.submitters, IsAccepted), AllToPop(p.workers)
  {
    hide Count, AllToPop;
    if p.runs[k] == 1 {
      acts := [];
      return;
    }
    var a: Action;
    if w: nat :| w < |p.workers| && !p.workers[w].Waiting? {
      a := Work(w);
      WorkerMoves(p, w);
    } else if i: nat :| i < |p.submitters| && p.submitters[i].Accepted? {
      a := Submit(i);
      PermitGiven(p, i);
    } else {
      a := Work(0);
      PermitWaits(p, k);
      WorkerWakes(p, 0);
    }
    StepInv(p, a);
    var q := Step(p, a);
    Basics(q);
    hide Inv, Step;
    var rest := RunsBeforeStop(q, k);
    acts := [a] + rest;
    assert acts[1..] == rest;
  }

  /** A Submit called before Stop, on a pool with a worker and room in the queue, is
      accepted if nobody else moves first, and a schedule without Stop completes a run
      of its task. */
  lemma SubmittedRuns(p: Pool, s: nat) returns (acts: seq<Action>)
    requires Reachable(p) && p.stopper.NotStopped? && |p.workers| >= 1 && p.head < p.tail + p.cap
    requires s < |p.submitters| && !p.submitters[s].Accepted?
    ensures NoStop(acts) && |acts| >= 1 && acts[0] == Submit(s)
    ensures Inv(p) && var r := Run(p, acts); !StopSet(r) && |p.runs| < |r.runs| && r.runs[|p.runs|] == 1
  {
    ReachableInv(p);
    Basics(p);
    var first: seq<Action> := [Submit(s)];
    RunOne(p, Submit(s));
    var q := Step(p, Submit(s));
    StepInv(p, Submit(s));
    if p.submitters[s].Outside? {
      RunOne(q, Submit(s));
      StepInv(q, Submit(s));
      q := Step(q, Submit(s));
      RunConcat(p, [Submit(s)], [Submit(s)]);
      first := [Submit(s)] + [Submit(s)];
    }
    Basics(q);
    hide Inv, Reachable;
    var rest := RunsBeforeStop(q, |p.runs|);
    RunConcat(p, first, rest);
    acts := first + rest;
  }

  /** A Submit called after `stop_` was set is refused and changes nothing. */
  lemma SubmitAfterStop(p: Pool, s: nat)
    requires Inv(p) && StopSet(p) && s < |p.submitters| && p.submitters[s].Outside?
    ensures TasksKnown(p) && Step(p, Submit(s)) == p
  {
    StepInv(p, Submit(s));
    hide Inv;
  }
}
