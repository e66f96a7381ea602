/** Jobs sent through a bounded message queue to a fixed set of worker threads,
    and their results collected in order.

    The queue is FIFO. The semaphore that tells a job is done stands in the
    source as a comment; here it is posted and awaited where the comments say.
    The counter of working threads is a semaphore too, but the maximum it is
    compared with is an unprotected variable, read and written in two steps.
 */
module QueuePool {
  import opened Runs
  import opened Sums

  const MQ_LEN := 10

  datatype JobState = Idle | Busy | Finished

  /** `done` is the value of the job's semaphore. */
  datatype Job = Job(state: JobState, done: nat)

  /** The next action of a worker with its local w and, where it needs it, i. */
  datatype Worker =
    | Receive | PostUsed(w: nat) | GetUsed(w: nat) | Compare(w: nat, i: nat) | WriteMax(w: nat, i: nat)
    | MarkBusy(w: nat) | Compute(w: nat) | MarkDone(w: nat) | PostDone(w: nat) | WaitUsed(w: nat)

  datatype Main = CreateWorker | Send | JoinResults | Ended

  /** `created`, `sent` and `collected` are loop counters. `received` and `taker` are
      history variables: the job numbers in the order received, and the worker
      each of these jobs went to; so is `peak`, the greatest value of `used` so far. */
  datatype State = State(
    queue: seq<nat>, used: nat, maxUsed: nat, jobs: seq<Job>, workers: seq<Worker>,
    main: Main, created: nat, sent: nat, collected: nat, received: seq<nat>, taker: seq<nat>, peak: nat)

  datatype Action = RunMain | RunResults | RunWorker(i: nat)

  function Min(a: nat, b: nat): nat {
    if a < b then a else b
  }

  function Max(a: nat, b: nat): nat {
    if a < b then b else a
  }

  function AfterCreate(created: nat, workers: nat, jobs: nat): Main {
    if created < workers then CreateWorker else AfterSend(0, jobs)
  }

  function AfterSend(sent: nat, jobs: nat): Main {
    if sent < jobs then Send else JoinResults
  }

  /** Of the threads asked for only as many are created as there are jobs. */
  function Init(threads: nat, jobs: nat): State {
    var n := Min(threads, jobs);
    State([], 0, 0, seq(jobs, _ => Job(Idle, 0)), seq(n, _ => Receive),
          AfterCreate(0, n, jobs), 0, 0, 0, [], [], 0)
  }

  function MainStep(s: State): State {
    match s.main
    case CreateWorker =>
      s.(created := s.created + 1, main := AfterCreate(s.created + 1, |s.workers|, |s.jobs|))
    case Send =>
      if |s.queue| < MQ_LEN then
        s.(queue := s.queue + [s.sent], sent := s.sent + 1, main := AfterSend(s.sent + 1, |s.jobs|))
      else s
    case JoinResults => if s.collected == |s.jobs| then s.(main := Ended) else s
    case Ended => s
  }

  function ResultsStep(s: State): State {
    var r := s.collected;
    if r < |s.jobs| && s.jobs[r].done > 0 then
      s.(jobs := s.jobs[r := s.jobs[r].(done := s.jobs[r].done - 1)], collected := r + 1)
    else s
  }

  /** One step of working_thread(). */
  function WorkerStep(s: State, i: nat): State
    requires i < |s.workers|
  {
    var go := (next: Worker) => s.(workers := s.workers[i := next]);
    match s.workers[i]
    case Receive =>
      if s.queue == [] then s
      else go(PostUsed(s.queue[0]))
           .(queue := s.queue[1..], received := s.received + [s.queue[0]], taker := s.taker + [i])
    case PostUsed(w) => go(GetUsed(w)).(used := s.used + 1, peak := Max(s.peak, s.used + 1))
    case GetUsed(w) => go(Compare(w, s.used))
    case Compare(w, u) => go(if u > s.maxUsed then WriteMax(w, u) else MarkBusy(w))
    case WriteMax(w, u) => go(MarkBusy(w)).(maxUsed := u)
    case MarkBusy(w) =>
      if w < |s.jobs| then go(Compute(w)).(jobs := s.jobs[w := s.jobs[w].(state := Busy)]) else s
    case Compute(w) => go(MarkDone(w))
    case MarkDone(w) =>
      if w < |s.jobs| then go(PostDone(w)).(jobs := s.jobs[w := s.jobs[w].(state := Finished)]) else s
    case PostDone(w) =>
      if w < |s.jobs| then go(WaitUsed(w)).(jobs := s.jobs[w := s.jobs[w].(done := s.jobs[w].done + 1)]) else s
    case WaitUsed(w) => if s.used > 0 then go(Receive).(used := s.used - 1) else s
  }

  function Next(s: State, a: Action): State {
    match a
    case RunMain => MainStep(s)
    case RunResults => ResultsStep(s)
    case RunWorker(i) => if i < |s.workers| && i < s.created then WorkerStep(s, i) else s
  }

  // ---------------------------------------------------------------- invariant

  /** Between sem_post and sem_wait of the counter. */
  ghost function Counted(x: Worker): int {
    if x.Receive? || x.PostUsed? then 0 else 1
  }

  ghost predicate QueueInv(s: State) {
    && |s.taker| == |s.received| && |s.received| + |s.queue| == s.sent <= |s.jobs| && |s.queue| <= MQ_LEN
    && (forall k :: 0 <= k < |s.received| ==> s.received[k] == k)
    && (forall k :: 0 <= k < |s.queue| ==> s.queue[k] == |s.received| + k)
  }

  ghost predicate MainInv(s: State) {
    && |s.workers| <= |s.jobs| && s.created <= |s.workers| && s.collected <= |s.jobs|
    && (s.main == CreateWorker <==> s.created < |s.workers|)
    && (s.main == CreateWorker ==> s.sent == 0)
    && (s.main == JoinResults || s.main == Ended ==> s.sent == |s.jobs|)
    && (s.main == Send ==> s.sent < |s.jobs|)
    && (s.main == Ended ==> s.collected == |s.jobs|)
    && s.maxUsed <= s.peak <= |s.workers| && s.used <= s.peak
  }

  /** A worker has the job that was last given to it. */
  ghost predicate WorkerInv(s: State, i: nat)
    requires i < |s.workers|
  {
    var x := s.workers[i];
    && (i >= s.created ==> x == Receive)
    && (!x.Receive? ==> x.w < |s.taker| && s.taker[x.w] == i)
    && (x.Compare? || x.WriteMax? ==> x.i <= s.peak)
  }

  /** The state of a job as its worker's next action tells it. */
  ghost predicate InPhase(x: Worker, job: Job, collected: bool) {
    match x
    case Receive => true
    case PostUsed(_) => job == Job(Idle, 0)
    case GetUsed(_) => job == Job(Idle, 0)
    case Compare(_, _) => job == Job(Idle, 0)
    case WriteMax(_, _) => job == Job(Idle, 0)
    case MarkBusy(_) => job == Job(Idle, 0)
    case Compute(_) => job == Job(Busy, 0)
    case MarkDone(_) => job == Job(Busy, 0)
    case PostDone(_) => job == Job(Finished, 0)
    case WaitUsed(_) => job == Job(Finished, if collected then 0 else 1)
  }

  ghost predicate JobInv(s: State, w: nat)
    requires w < |s.jobs|
  {
    var job := s.jobs[w];
    if w >= |s.taker| then job == Job(Idle, 0) && w >= s.collected
    else
      && s.taker[w] < |s.workers|
      && var x := s.workers[s.taker[w]];
         if !x.Receive? && x.w == w then
           InPhase(x, job, w < s.collected) && (w < s.collected ==> x.WaitUsed?)
         else job == Job(Finished, if w < s.collected then 0 else 1)
  }

  ghost predicate Inv(s: State) {
    && QueueInv(s) && MainInv(s)
    && s.used == Sum(Counted, s.workers)
    && (forall i :: 0 <= i < |s.workers| ==> WorkerInv(s, i))
    && (forall w :: 0 <= w < |s.jobs| ==> JobInv(s, w))
  }

  lemma UsedIsBounded(s: State)
    requires s.used == Sum(Counted, s.workers)
    ensures s.used <= |s.workers|
  {
    SumBounds(Counted, s.workers, 0, 1);
  }

  lemma WorkerKeepsOwn(s: State, i: nat)
    requires Inv(s) && i < s.created
    ensures i < |WorkerStep(s, i).workers| && WorkerInv(WorkerStep(s, i), i)
  {
    assert WorkerInv(s, i);
    UsedIsBounded(s);
  }

  lemma WorkerKeepsOther(s: State, i: nat, k: nat)
    requires QueueInv(s) && i < |s.workers| && k < |s.workers| && k != i && WorkerInv(s, k)
    ensures k < |WorkerStep(s, i).workers| && WorkerInv(WorkerStep(s, i), k)
  {
  }

  lemma ReceiveKeepsJob(s: State, i: nat, w: nat)
    requires QueueInv(s) && i < |s.workers| && s.workers[i] == Receive
    requires w < |s.jobs| && JobInv(s, w)
    ensures w < |WorkerStep(s, i).jobs| && JobInv(WorkerStep(s, i), w)
  {
  }

  lemma WorkKeepsJob(s: State, i: nat, w: nat)
    requires i < |s.workers| && s.workers[i] != Receive && WorkerInv(s, i)
    requires w < |s.jobs| && JobInv(s, w)
    ensures w < |WorkerStep(s, i).jobs| && JobInv(WorkerStep(s, i), w)
  {
  }

  lemma WorkerKeepsJob(s: State, i: nat, w: nat)
    requires Inv(s) && i < s.created && w < |s.jobs|
    ensures w < |WorkerStep(s, i).jobs| && JobInv(WorkerStep(s, i), w)
  {
    assert JobInv(s, w) && WorkerInv(s, i);
    if s.workers[i] == Receive {
      ReceiveKeepsJob(s, i, w);
    } else {
      WorkKeepsJob(s, i, w);
    }
  }

  lemma WorkerKeepsCount(s: State, i: nat)
    requires s.used == Sum(Counted, s.workers) && i < |s.workers|
    ensures WorkerStep(s, i).used == Sum(Counted, WorkerStep(s, i).workers)
  {
    var x := WorkerStep(s, i).workers[i];
    SumUpdate(Counted, s.workers, i, x);
    assert WorkerStep(s, i).workers == s.workers[i := x];
  }

  lemma WorkerKeepsQueue(s: State, i: nat)
    requires QueueInv(s) && i < |s.workers|
    ensures QueueInv(WorkerStep(s, i))
  {
  }

  lemma WorkerKeepsMain(s: State, i: nat)
    requires MainInv(s) && i < |s.workers| && WorkerInv(s, i)
    requires WorkerStep(s, i).used <= |s.workers|
    ensures MainInv(WorkerStep(s, i))
  {
  }

  lemma WorkerKeepsInv(s: State, i: nat)
    requires Inv(s) && i < s.created
    ensures Inv(WorkerStep(s, i))
  {
    var s' := WorkerStep(s, i);
    WorkerKeepsCount(s, i);
    UsedIsBounded(s');
    assert WorkerInv(s, i);
    WorkerKeepsQueue(s, i);
    WorkerKeepsMain(s, i);
    forall k | 0 <= k < |s'.workers|
      ensures WorkerInv(s', k)
    {
      if k == i {
        WorkerKeepsOwn(s, i);
      } else {
        assert WorkerInv(s, k);
        WorkerKeepsOther(s, i, k);
      }
    }
    forall w | 0 <= w < |s'.jobs|
      ensures JobInv(s', w)
    {
      WorkerKeepsJob(s, i, w);
    }
  }

  lemma MainKeepsInv(s: State)
    requires Inv(s)
    ensures Inv(MainStep(s))
  {
    var s' := MainStep(s);
    forall k | 0 <= k < |s'.workers|
      ensures WorkerInv(s', k)
    {
      assert WorkerInv(s, k);
    }
    forall w | 0 <= w < |s'.jobs|
      ensures JobInv(s', w)
    {
      assert JobInv(s, w);
    }
  }

  lemma ResultsKeepsInv(s: State)
    requires Inv(s)
    ensures Inv(ResultsStep(s))
  {
    var s' := ResultsStep(s);
    forall k | 0 <= k < |s'.workers|
      ensures WorkerInv(s', k)
    {
      assert WorkerInv(s, k);
    }
    forall w | 0 <= w < |s'.jobs|
      ensures JobInv(s', w)
    {
      assert JobInv(s, w);
    }
  }

  lemma NextKeepsInv(s: State, a: Action)
    requires Inv(s)
    ensures Inv(Next(s, a))
  {
    match a {
      case RunMain => MainKeepsInv(s);
      case RunResults => ResultsKeepsInv(s);
      case RunWorker(i) => if i < s.created { WorkerKeepsInv(s, i); }
    }
  }

  ghost predicate SameProgram(s: State, x: State) {
    |s.workers| == |x.workers| && |s.jobs| == |x.jobs|
  }

  lemma {:induction false} ProgramStays(s: State, schedule: seq<Action>)
    ensures SameProgram(Exec(Next, s, schedule), s)
    decreases |schedule|
  {
    if schedule != [] {
      ProgramStays(s, schedule[..|schedule| - 1]);
    }
  }

  lemma InitInv(threads: nat, jobs: nat)
    ensures Inv(Init(threads, jobs))
  {
    SumBounds(Counted, Init(threads, jobs).workers, 0, 0);
  }

  lemma Reachable(threads: nat, jobs: nat, schedule: seq<Action>)
    ensures var s := Exec(Next, Init(threads, jobs), schedule);
      Inv(s) && |s.workers| == Min(threads, jobs) && |s.jobs| == jobs
  {
    InitInv(threads, jobs);
    forall x: State, a: Action | Inv(x)
      ensures Inv(Next(x, a))
    {
      NextKeepsInv(x, a);
    }
    Invariance(Next, Inv, Init(threads, jobs), schedule);
    ProgramStays(Init(threads, jobs), schedule);
  }

  // ------------------------------------------------------------ main theorems

  ghost function UpTo(n: nat): seq<nat> {
    seq(n, k => k)
  }

  /** On every schedule the job numbers received are 0, 1, 2 and so on, and no
      two workers have the same job. */
  lemma JobsAreReceivedInOrder(threads: nat, jobs: nat, schedule: seq<Action>)
    ensures var s := Exec(Next, Init(threads, jobs), schedule);
      && s.received == UpTo(|s.received|)
      && forall i, k :: 0 <= i < k < |s.workers| && !s.workers[i].Receive? && !s.workers[k].Receive? ==>
           s.workers[i].w != s.workers[k].w
  {
    var s := Exec(Next, Init(threads, jobs), schedule);
    Reachable(threads, jobs, schedule);
    forall i, k | 0 <= i < k < |s.workers| && !s.workers[i].Receive? && !s.workers[k].Receive?
      ensures s.workers[i].w != s.workers[k].w
    {
      assert WorkerInv(s, i) && WorkerInv(s, k);
    }
  }

  ghost predicate Forward(before: JobState, after: JobState) {
    after == before || (before == Idle && after == Busy) || (before == Busy && after == Finished)
  }

  lemma StepForward(s: State, a: Action, w: nat)
    requires Inv(s) && w < |s.jobs|
    ensures |Next(s, a).jobs| == |s.jobs| && Forward(s.jobs[w].state, Next(s, a).jobs[w].state)
    ensures w < s.collected ==> s.jobs[w].state == Finished
  {
    assert JobInv(s, w);
    if a.RunWorker? && a.i < s.created {
      assert WorkerInv(s, a.i);
    }
  }

  /** A job is idle, then busy, then finished, each once, and finished when its
      result is collected. */
  lemma JobsGoForward(threads: nat, jobs: nat, schedule: seq<Action>, a: Action, w: nat)
    requires w < jobs
    ensures var s := Exec(Next, Init(threads, jobs), schedule);
      && |s.jobs| == |Next(s, a).jobs| == jobs
      && Forward(s.jobs[w].state, Next(s, a).jobs[w].state)
      && (w < s.collected ==> s.jobs[w].state == Finished)
  {
    var s := Exec(Next, Init(threads, jobs), schedule);
    Reachable(threads, jobs, schedule);
    StepForward(s, a, w);
  }

  /** The semaphore always counts the workers between its post and its wait, so
      that this wait never blocks; and the recorded maximum, though its update
      is a race, never exceeds the most workers that were counted at once, nor
      that the number of threads or jobs. */
  lemma UsedIsExact(threads: nat, jobs: nat, schedule: seq<Action>, i: nat)
    ensures var s := Exec(Next, Init(threads, jobs), schedule);
      && s.used == Sum(Counted, s.workers)
      && (i < |s.workers| && s.workers[i].WaitUsed? ==> Next(s, RunWorker(i)).workers != s.workers)
      && s.maxUsed <= s.peak <= Min(threads, jobs)
  {
    var s := Exec(Next, Init(threads, jobs), schedule);
    Reachable(threads, jobs, schedule);
    if i < |s.workers| && s.workers[i].WaitUsed? {
      assert WorkerInv(s, i);
      SumAtLeastOne(Counted, s.workers, i);
      assert Next(s, RunWorker(i)).workers[i] == Receive;
    }
  }

  ghost predicate Final(s: State) {
    s.main == Ended
  }

  lemma EndIsComplete(s: State)
    requires Inv(s) && Final(s)
    ensures s.received == UpTo(|s.jobs|) && s.queue == [] && s.collected == |s.jobs|
    ensures forall w :: 0 <= w < |s.jobs| ==> s.jobs[w] == Job(Finished, 0)
  {
    assert s.jobs != [] ==> JobInv(s, |s.jobs| - 1);
    assert |s.received| == |s.jobs|;
    forall w | 0 <= w < |s.jobs|
      ensures s.jobs[w] == Job(Finished, 0)
    {
      assert JobInv(s, w);
    }
  }

  /** When main has joined the results thread every job has been received and
      finished, and every result was collected. */
  lemma AllCollectedAtEnd(threads: nat, jobs: nat, schedule: seq<Action>)
    requires Final(Exec(Next, Init(threads, jobs), schedule))
    ensures var s := Exec(Next, Init(threads, jobs), schedule);
      && s.received == UpTo(jobs) && s.queue == [] && s.collected == |s.jobs| == jobs
      && forall w :: 0 <= w < |s.jobs| ==> s.jobs[w] == Job(Finished, 0)
  {
    Reachable(threads, jobs, schedule);
    EndIsComplete(Exec(Next, Init(threads, jobs), schedule));
  }

  // ----------------------------------------------------------------- progress

  predicate CanStep(s: State, a: Action) {
    Next(s, a) != s
  }

  lemma BusyWorkerCanStep(s: State, i: nat)
    requires Inv(s) && i < |s.workers| && (s.workers[i] != Receive || s.queue != []) && i < s.created
    ensures CanStep(s, RunWorker(i))
  {
    assert WorkerInv(s, i);
    if s.workers[i].WaitUsed? {
      SumAtLeastOne(Counted, s.workers, i);
    }
    assert WorkerStep(s, i).workers[i] != s.workers[i];
  }

  /** No deadlock, neither on the full queue nor in collecting in order. */
  lemma SomebodyCanStep(s: State) returns (a: Action)
    requires Inv(s) && !Final(s) && |s.workers| >= 1
    ensures CanStep(s, a)
  {
    if MainStep(s) != s {
      a := RunMain;
    } else if i :| 0 <= i < |s.workers| && s.workers[i] != Receive {
      a := RunWorker(i);
      assert WorkerInv(s, i);
      BusyWorkerCanStep(s, i);
    } else if s.queue != [] {
      assert s.main != CreateWorker;
      a := RunWorker(0);
      BusyWorkerCanStep(s, 0);
    } else {
      assert s.main == JoinResults;
      assert JobInv(s, s.collected);
      a := RunResults;
      assert ResultsStep(s).collected != s.collected;
    }
  }

  lemma NoDeadlock(threads: nat, jobs: nat, schedule: seq<Action>)
    requires threads >= 1 && jobs >= 1
    ensures var s := Exec(Next, Init(threads, jobs), schedule);
      Final(s) || exists a: Action :: CanStep(s, a)
  {
    Reachable(threads, jobs, schedule);
    if !Final(Exec(Next, Init(threads, jobs), schedule)) {
      var a := SomebodyCanStep(Exec(Next, Init(threads, jobs), schedule));
    }
  }

  ghost function WorkerRank(x: Worker): int {
    match x
    case Receive => 0
    case PostUsed(_) => 10
    case GetUsed(_) => 9
    case Compare(_, _) => 8
    case WriteMax(_, _) => 7
    case MarkBusy(_) => 6
    case Compute(_) => 5
    case MarkDone(_) => 4
    case PostDone(_) => 3
    case WaitUsed(_) => 2
  }

  ghost function LoopPart(s: State): int {
    12 * (|s.jobs| - s.sent) + 11 * |s.queue| + (|s.jobs| - s.collected) + (|s.workers| - s.created)
    + if s.main == Ended then 0 else 1
  }

  ghost function Measure(s: State): nat {
    var m := LoopPart(s) + Sum(WorkerRank, s.workers);
    if m < 0 then 0 else m
  }

  lemma ReceiveMeasureFalls(s: State, i: nat)
    requires i < |s.workers| && s.workers[i] == Receive
    ensures var s' := WorkerStep(s, i);
      s' == s || LoopPart(s') + Sum(WorkerRank, s'.workers) < LoopPart(s) + Sum(WorkerRank, s.workers)
  {
    if s.queue != [] {
      SumUpdate(WorkerRank, s.workers, i, PostUsed(s.queue[0]));
    }
  }

  lemma WorkMeasureFalls(s: State, i: nat)
    requires i < |s.workers| && s.workers[i] != Receive
    ensures var s' := WorkerStep(s, i);
      && LoopPart(s') == LoopPart(s)
      && (s' == s || Sum(WorkerRank, s'.workers) < Sum(WorkerRank, s.workers))
  {
    var x := WorkerStep(s, i).workers[i];
    SumUpdate(WorkerRank, s.workers, i, x);
    assert WorkerStep(s, i).workers == s.workers[i := x];
  }

  lemma WorkerMeasureFalls(s: State, i: nat)
    requires i < |s.workers|
    ensures var s' := WorkerStep(s, i);
      s' == s || LoopPart(s') + Sum(WorkerRank, s'.workers) < LoopPart(s) + Sum(WorkerRank, s.workers)
  {
    if s.workers[i] == Receive {
      ReceiveMeasureFalls(s, i);
    } else {
      WorkMeasureFalls(s, i);
    }
  }

  lemma MeasureFalls(s: State, a: Action)
    requires Inv(s) && Inv(Next(s, a))
    ensures Measure(Next(s, a)) + (if CanStep(s, a) then 1 else 0) <= Measure(s)
  {
    SumIsNotNegative(WorkerRank, s.workers);
    SumIsNotNegative(WorkerRank, Next(s, a).workers);
    if a.RunWorker? && a.i < s.created {
      WorkerMeasureFalls(s, a.i);
    }
  }

  /** Every run is finite: 13 steps a job, one for each worker and one to join. */
  lemma WorkIsBounded(threads: nat, jobs: nat, schedule: seq<Action>)
    ensures Work(Next, CanStep, Init(threads, jobs), schedule) <= 13 * jobs + Min(threads, jobs) + 1
  {
    var s := Init(threads, jobs);
    InitInv(threads, jobs);
    SumBounds(WorkerRank, s.workers, 0, 0);
    forall x: State, a: Action | Inv(x)
      ensures Inv(Next(x, a))
      ensures Measure(Next(x, a)) + (if CanStep(x, a) then 1 else 0) <= Measure(x)
    {
      NextKeepsInv(x, a);
      MeasureFalls(x, a);
    }
    BoundedWork(Next, Inv, CanStep, Measure, s, schedule);
  }

  // -------------------------------------------------------------- the program

  /** The message queue, the array of jobs, the semaphores and the threads. */
  class Pool {
    const work: array<Job>
    const threads: array<Worker>
    var workQueue: seq<nat>
    var threadsUsed: nat
    var maxThreadsUsed: nat
    var main: Main
    var created: nat
    var sent: nat
    var collected: nat
    ghost var received: seq<nat>
    ghost var taker: seq<nat>
    ghost var peak: nat

    ghost function View(): State
      reads this, work, threads
    {
      State(workQueue, threadsUsed, maxThreadsUsed, work[..], threads[..], main, created, sent, collected,
            received, taker, peak)
    }

    constructor (numThreads: nat, numWork: nat)
      ensures fresh(work) && fresh(threads)
      ensures View() == Init(numThreads, numWork)
    {
      var n := Min(numThreads, numWork);
      work := new Job[numWork](_ => Job(Idle, 0));
      threads := new Worker[n](_ => Receive);
      workQueue, threadsUsed, maxThreadsUsed := [], 0, 0;
      main, created, sent, collected := AfterCreate(0, n, numWork), 0, 0, 0;
      received, taker, peak := [], [], 0;
      new;
      assert work[..] == seq(numWork, _ => Job(Idle, 0));
      assert threads[..] == seq(n, _ => Receive);
    }

    method DispatchStep()
      modifies this
      ensures View() == MainStep(old(View()))
    {
      match main {
        case CreateWorker =>
          created := created + 1;
          main := AfterCreate(created, threads.Length, work.Length);
        case Send =>
          if |workQueue| < MQ_LEN {
            workQueue := workQueue + [sent];
            sent := sent + 1;
            main := AfterSend(sent, work.Length);
          }
        case JoinResults =>
          if collected == work.Length {
            main := Ended;
          }
        case Ended =>
      }
    }

    method CollectStep()
      modifies this, work
      ensures View() == ResultsStep(old(View()))
    {
      var r := collected;
      if r < work.Length && work[r].done > 0 {
        work[r] := work[r].(done := work[r].done - 1);
        collected := r + 1;
      }
    }

    method WorkStep(i: nat)
      requires i < threads.Length
      modifies this, threads, work
      ensures View() == WorkerStep(old(View()), i)
    {
      match threads[i] {
        case Receive =>
          if workQueue != [] {
            threads[i] := PostUsed(workQueue[0]);
            received, taker := received + [workQueue[0]], taker + [i];
            workQueue := workQueue[1..];
          }
        case PostUsed(w) =>
          threadsUsed := threadsUsed + 1;
          peak := Max(peak, threadsUsed);
          threads[i] := GetUsed(w);
        case GetUsed(w) => threads[i] := Compare(w, threadsUsed);
        case Compare(w, u) =>
          if u > maxThreadsUsed {
            threads[i] := WriteMax(w, u);
          } else {
            threads[i] := MarkBusy(w);
          }
        case WriteMax(w, u) =>
          maxThreadsUsed := u;
          threads[i] := MarkBusy(w);
        case MarkBusy(w) =>
          if w < work.Length {
            work[w] := work[w].(state := Busy);
            threads[i] := Compute(w);
          }
        case Compute(w) => threads[i] := MarkDone(w);
        case MarkDone(w) =>
          if w < work.Length {
            work[w] := work[w].(state := Finished);
            threads[i] := PostDone(w);
          }
        case PostDone(w) =>
          if w < work.Length {
            work[w] := work[w].(done := work[w].done + 1);
            threads[i] := WaitUsed(w);
          }
        case WaitUsed(_) =>
          if threadsUsed > 0 {
            threadsUsed := threadsUsed - 1;
            threads[i] := Receive;
          }
      }
    }

    /** Plays a schedule from the start. */
    method Play(schedule: seq<Action>)
      requires View() == Init(threads.Length, work.Length)
      modifies this, threads, work
      ensures View() == Exec(Next, old(View()), schedule)
      ensures received == UpTo(|received|) && maxThreadsUsed <= Min(threads.Length, work.Length)
      ensures main == Ended ==>
                received == UpTo(work.Length) && forall w :: 0 <= w < work.Length ==> work[w].state == Finished
    {
      for n := 0 to |schedule|
        invariant View() == Exec(Next, old(View()), schedule[..n])
      {
        match schedule[n] {
          case RunMain => DispatchStep();
          case RunResults => CollectStep();
          case RunWorker(i) => if i < threads.Length && i < created { WorkStep(i); }
        }
        assert schedule[..n + 1][..n] == schedule[..n];
      }
      assert schedule[..|schedule|] == schedule;
      Reachable(threads.Length, work.Length, schedule);
      if main == Ended {
        AllCollectedAtEnd(threads.Length, work.Length, schedule);
      }
    }
  }
}
