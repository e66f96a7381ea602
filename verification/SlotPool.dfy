/** Jobs that run in a limited number of worker threads, and their results
    collected in order.

    The main thread allocates a slot for each job and starts a worker in it; the
    results thread waits for each job to have started, joins its worker and
    frees the slot. The semaphore operations stand in the source as comments
    only; here they are where these comments and the drawing at its head put them.
 */
module SlotPool {
  import opened Runs
  import opened Sums

  /** The worker of a slot and its next action. NoWorker before it is created
      and after it has been joined. */
  datatype Worker =
    | NoWorker | ReadJob | WriteIndex(w: nat) | PostStarted(w: nat)
    | MarkBusy(w: nat) | Compute(w: nat) | MarkDone(w: nat) | Exited

  /** An element of threads[]. */
  datatype Slot = Slot(taken: bool, w: nat, worker: Worker)

  datatype JobState = Idle | Busy | Finished

  /** An element of work[]; `started` is the value of its semaphore. */
  datatype Job = Job(index: nat, started: nat, state: JobState)

  /** The main thread: NotFound is the branch that should never happen. */
  datatype Main =
    | AwaitSlot | CountUsed | Scan(i: nat) | Claim(i: nat) | SetJob(i: nat) | Create(i: nat)
    | NotFound | JoinResults | Ended

  /** The results thread. */
  datatype Results = AwaitStart | JoinWorker | FreeSlot | PostSlot | AllCollected

  /** `available` is the semaphore of free slots, `launched` and `collected` are
      the loop counters of the two threads. History variables are `home`, the
      slot each job was launched in, `outs`, how many permits were out each
      time the main thread counted them, and `peak`, the most ever out. */
  datatype State = State(
    slots: seq<Slot>, jobs: seq<Job>, available: nat, maxUsed: int,
    main: Main, launched: nat, results: Results, collected: nat, home: seq<nat>,
    outs: seq<int>, peak: int)

  datatype Action = RunMain | RunResults | RunWorker(i: nat)

  function Init(slots: nat, jobs: nat): State {
    State(seq(slots, _ => Slot(false, 0, NoWorker)), seq(jobs, _ => Job(0, 0, Idle)), slots, 0,
          NextLaunch(0, jobs), 0, NextResult(0, jobs), 0, [], [], 0)
  }

  function NextLaunch(launched: nat, jobs: nat): Main {
    if launched < jobs then AwaitSlot else JoinResults
  }

  function NextResult(collected: nat, jobs: nat): Results {
    if collected < jobs then AwaitStart else AllCollected
  }

  function PutSlot(s: State, i: nat, x: Slot): State {
    if i < |s.slots| then s.(slots := s.slots[i := x]) else s
  }

  function PutJob(s: State, w: nat, x: Job): State {
    if w < |s.jobs| then s.(jobs := s.jobs[w := x]) else s
  }

  /** get_available_thread() and the launch loop. */
  function MainStep(s: State): State {
    match s.main
    case AwaitSlot =>
      if s.available > 0 then
        var out := s.launched + 1 - s.collected;
        s.(available := s.available - 1, main := CountUsed, peak := if out > s.peak then out else s.peak)
      else s
    case CountUsed =>
      var used := |s.slots| - s.available;
      s.(maxUsed := if used > s.maxUsed then used else s.maxUsed, main := Scan(0),
         outs := s.outs + [s.launched + 1 - s.collected])
    case Scan(i) =>
      if i >= |s.slots| then s.(main := NotFound)
      else if s.slots[i].taken then s.(main := Scan(i + 1))
      else s.(main := Claim(i))
    case Claim(i) =>
      if i < |s.slots| then PutSlot(s, i, s.slots[i].(taken := true)).(main := SetJob(i)) else s
    case SetJob(i) =>
      if i < |s.slots| then PutSlot(s, i, s.slots[i].(w := s.launched)).(main := Create(i)) else s
    case Create(i) =>
      if i < |s.slots| then
        PutSlot(s, i, s.slots[i].(worker := ReadJob))
        .(home := s.home + [i], launched := s.launched + 1, main := NextLaunch(s.launched + 1, |s.jobs|))
      else s
    case NotFound => s
    case JoinResults => if s.results == AllCollected then s.(main := Ended) else s
    case Ended => s
  }

  /** results_thread(). */
  function ResultsStep(s: State): State {
    var r := s.collected;
    if r >= |s.jobs| || s.jobs[r].index >= |s.slots| then s
    else
      var job := s.jobs[r];
      var slot := s.slots[job.index];
      match s.results
      case AwaitStart =>
        if job.started > 0 then PutJob(s, r, job.(started := job.started - 1)).(results := JoinWorker) else s
      case JoinWorker =>
        if slot.worker == Exited then
          PutSlot(s, job.index, slot.(worker := NoWorker)).(results := FreeSlot)
        else s
      case FreeSlot => PutSlot(s, job.index, slot.(taken := false)).(results := PostSlot)
      case PostSlot =>
        s.(available := s.available + 1, collected := r + 1, results := NextResult(r + 1, |s.jobs|))
      case AllCollected => s
  }

  /** working_thread() in slot i; it reads its job's number from the slot again
      and again. */
  function WorkerStep(s: State, i: nat): State
    requires i < |s.slots|
  {
    var slot := s.slots[i];
    var go := (next: Worker) => PutSlot(s, i, slot.(worker := next));
    match slot.worker
    case NoWorker => s
    case ReadJob => go(WriteIndex(slot.w))
    case WriteIndex(w) =>
      if w < |s.jobs| then PutJob(go(PostStarted(w)), w, s.jobs[w].(index := i)) else s
    case PostStarted(w) =>
      if w < |s.jobs| then PutJob(go(MarkBusy(w)), w, s.jobs[w].(started := s.jobs[w].started + 1)) else s
    case MarkBusy(w) =>
      if slot.w < |s.jobs| then PutJob(go(Compute(w)), slot.w, s.jobs[slot.w].(state := Busy)) else s
    case Compute(w) => go(MarkDone(w))
    case MarkDone(w) =>
      if slot.w < |s.jobs| then PutJob(go(Exited), slot.w, s.jobs[slot.w].(state := Finished)) else s
    case Exited => s
  }

  function Next(s: State, a: Action): State {
    match a
    case RunMain => MainStep(s)
    case RunResults => ResultsStep(s)
    case RunWorker(i) => if i < |s.slots| then WorkerStep(s, i) else s
  }

  // ---------------------------------------------------------------- invariant

  /** Between sem_wait and the creation of the worker. */
  ghost predicate HasPermit(m: Main) {
    m.CountUsed? || m.Scan? || m.Claim? || m.SetJob? || m.Create?
  }

  /** The jobs before this one have given their slot back. */
  ghost function Freed(s: State): nat {
    s.collected + if s.results.PostSlot? then 1 else 0
  }

  /** What the worker of slot i and its job know of each other; `awaited` says
      that the results thread has seen the job start. */
  ghost predicate InPhase(x: Slot, i: nat, w: nat, job: Job, awaited: bool) {
    var started := if awaited then 0 else 1;
    match x.worker
    case NoWorker => awaited && job.state == Finished && job.index == i && job.started == 0
    case ReadJob => !awaited && job.state == Idle && job.started == 0
    case WriteIndex(v) => v == w && !awaited && job.state == Idle && job.started == 0
    case PostStarted(v) => v == w && !awaited && job.state == Idle && job.started == 0 && job.index == i
    case MarkBusy(v) => v == w && job.state == Idle && job.started == started && job.index == i
    case Compute(v) => v == w && job.state == Busy && job.started == started && job.index == i
    case MarkDone(v) => v == w && job.state == Busy && job.started == started && job.index == i
    case Exited => job.state == Finished && job.started == started && job.index == i
  }

  /** A launched job that still has its slot. */
  ghost predicate ActiveInv(s: State, w: nat)
    requires |s.home| == s.launched <= |s.jobs| && w < s.launched
  {
    var i := s.home[w];
    && i < |s.slots| && s.slots[i].taken && s.slots[i].w == w
    && s.main != SetJob(i) && s.main != Create(i)
    && InPhase(s.slots[i], i, w, s.jobs[w], w == s.collected && !s.results.AwaitStart?)
    && (s.slots[i].worker == NoWorker <==> w == s.collected && s.results.FreeSlot?)
  }

  ghost predicate SlotInv(s: State, i: nat)
    requires |s.home| == s.launched && i < |s.slots|
  {
    var x := s.slots[i];
    if !x.taken then x.worker == NoWorker
    else if s.main == SetJob(i) then x.worker == NoWorker
    else if s.main == Create(i) then x.worker == NoWorker && x.w == s.launched
    else Freed(s) <= x.w < s.launched && s.home[x.w] == i
  }

  /** A slot that the scan has still to come to is free. */
  ghost predicate FreeFrom(slots: seq<Slot>, i: nat) {
    exists f :: i <= f < |slots| && !slots[f].taken
  }

  ghost predicate MainInv(s: State) {
    && (s.main.Scan? ==> FreeFrom(s.slots, s.main.i))
    && (s.main.Claim? ==> s.main.i < |s.slots| && !s.slots[s.main.i].taken)
    && (s.main.SetJob? || s.main.Create? ==> s.main.i < |s.slots| && s.slots[s.main.i].taken)
    && s.main != NotFound
    && (s.main.JoinResults? || s.main.Ended? <==> s.launched == |s.jobs|)
    && (s.main.Ended? ==> s.results.AllCollected?)
    && s.maxUsed <= |s.slots| && s.maxUsed <= |s.jobs|
  }

  ghost predicate CountInv(s: State) {
    && |s.home| == s.launched <= |s.jobs| && s.collected <= s.launched
    && s.available + s.launched + (if HasPermit(s.main) then 1 else 0) == |s.slots| + s.collected
    && (s.results.AllCollected? <==> s.collected == |s.jobs|)
    && (s.collected == s.launched ==> s.results.AwaitStart? || s.results.AllCollected?)
  }

  ghost predicate JobInv(s: State, w: nat)
    requires w < |s.jobs|
  {
    && (w >= s.launched ==> s.jobs[w] == Job(0, 0, Idle))
    && (w < Freed(s) ==> s.jobs[w].state == Finished)
    && (w == s.collected && s.results.PostSlot? ==> s.jobs[w].index < |s.slots|)
  }

  ghost predicate Inv(s: State) {
    && CountInv(s) && MainInv(s)
    && (forall w :: Freed(s) <= w < s.launched ==> ActiveInv(s, w))
    && (forall i :: 0 <= i < |s.slots| ==> SlotInv(s, i))
    && (forall w :: 0 <= w < |s.jobs| ==> JobInv(s, w))
  }

  /** Slots are only freed behind the back of a scanning main thread. */
  lemma FreeStays(before: seq<Slot>, after: seq<Slot>, i: nat)
    requires FreeFrom(before, i) && |after| == |before|
    requires forall k :: 0 <= k < |before| ==> after[k].taken ==> before[k].taken
    ensures FreeFrom(after, i)
  {
    var f :| i <= f < |before| && !before[f].taken;
    assert !after[f].taken;
  }

  // ------------------------------------------------------------ worker steps

  lemma WorkerJob(s: State, i: nat)
    requires Inv(s) && i < |s.slots| && s.slots[i].worker != NoWorker
    ensures var w := s.slots[i].w;
      Freed(s) <= w < s.launched && s.home[w] == i && ActiveInv(s, w)
  {
    assert SlotInv(s, i);
  }

  /** The step of a worker as its own job sees it, and as the others do. */
  lemma WorkerKeepsOwnJob(s: State, i: nat)
    requires Inv(s) && i < |s.slots| && s.slots[i].worker != NoWorker
    ensures var s', w := WorkerStep(s, i), s.slots[i].w;
      |s'.home| == s'.launched <= |s'.jobs| && w < s'.launched && ActiveInv(s', w)
  {
    WorkerJob(s, i);
  }

  lemma WorkerKeepsOtherJob(s: State, i: nat, w: nat)
    requires Inv(s) && i < |s.slots| && s.slots[i].worker != NoWorker
    requires Freed(s) <= w < s.launched && w != s.slots[i].w
    ensures var s' := WorkerStep(s, i);
      |s'.home| == s'.launched <= |s'.jobs| && w < s'.launched && ActiveInv(s', w)
  {
    WorkerJob(s, i);
    assert ActiveInv(s, w);
  }

  lemma WorkerKeepsSlot(s: State, i: nat, k: nat)
    requires Inv(s) && i < |s.slots| && k < |s.slots|
    ensures var s' := WorkerStep(s, i);
      && |s'.slots| == |s.slots| && SlotInv(s', k)
      && s'.slots[k].taken == s.slots[k].taken && s'.slots[k].w == s.slots[k].w
  {
    assert SlotInv(s, k);
  }

  lemma WorkerKeepsJob(s: State, i: nat, w: nat)
    requires Inv(s) && i < |s.slots| && w < |s.jobs|
    ensures w < |WorkerStep(s, i).jobs| && JobInv(WorkerStep(s, i), w)
  {
    assert JobInv(s, w);
    if s.slots[i].worker != NoWorker {
      WorkerJob(s, i);
    }
  }

  lemma WorkerKeepsActive(s: State, i: nat, w: nat)
    requires Inv(s) && i < |s.slots| && Freed(s) <= w < s.launched
    ensures var s' := WorkerStep(s, i);
      |s'.home| == s'.launched <= |s'.jobs| && w < s'.launched && ActiveInv(s', w)
  {
    assert ActiveInv(s, w);
    if s.slots[i].worker != NoWorker {
      if w == s.slots[i].w {
        WorkerKeepsOwnJob(s, i);
      } else {
        WorkerKeepsOtherJob(s, i, w);
      }
    }
  }

  lemma WorkerKeepsMain(s: State, i: nat)
    requires Inv(s) && i < |s.slots|
    ensures MainInv(WorkerStep(s, i)) && CountInv(WorkerStep(s, i))
  {
    var s' := WorkerStep(s, i);
    forall k | 0 <= k < |s.slots|
      ensures s'.slots[k].taken == s.slots[k].taken
    {
      WorkerKeepsSlot(s, i, k);
    }
    if s.main.Scan? {
      FreeStays(s.slots, s'.slots, s.main.i);
    }
  }

  lemma WorkerKeepsInv(s: State, i: nat)
    requires Inv(s) && i < |s.slots|
    ensures Inv(WorkerStep(s, i))
  {
    var s' := WorkerStep(s, i);
    WorkerKeepsMain(s, i);
    forall w | Freed(s) <= w < s.launched
      ensures ActiveInv(s', w)
    {
      WorkerKeepsActive(s, i, w);
    }
    forall k | 0 <= k < |s.slots|
      ensures SlotInv(s', k)
    {
      WorkerKeepsSlot(s, i, k);
    }
    forall w | 0 <= w < |s.jobs|
      ensures JobInv(s', w)
    {
      WorkerKeepsJob(s, i, w);
    }
  }

  // ----------------------------------------------------------- results steps

  lemma CurrentJob(s: State)
    requires Inv(s) && s.collected < |s.jobs|
    ensures s.collected < s.launched && !s.results.PostSlot? ==> ActiveInv(s, s.collected)
    ensures JobInv(s, s.collected)
  {
  }

  lemma ResultsKeepsActive(s: State, w: nat)
    requires Inv(s) && Freed(ResultsStep(s)) <= w < s.launched
    ensures var s' := ResultsStep(s);
      |s'.home| == s'.launched <= |s'.jobs| && w < s'.launched && ActiveInv(s', w)
  {
    assert ActiveInv(s, w);
    if s.collected < |s.jobs| {
      CurrentJob(s);
    }
  }

  lemma ResultsKeepsSlot(s: State, i: nat)
    requires Inv(s) && i < |s.slots|
    ensures var s' := ResultsStep(s);
      |s'.home| == s'.launched && i < |s'.slots| && SlotInv(s', i)
  {
    assert SlotInv(s, i);
    if s.collected < |s.jobs| {
      CurrentJob(s);
    }
  }

  lemma ResultsKeepsJob(s: State, w: nat)
    requires Inv(s) && w < |s.jobs|
    ensures w < |ResultsStep(s).jobs| && JobInv(ResultsStep(s), w)
  {
    assert JobInv(s, w);
    if s.collected < |s.jobs| {
      CurrentJob(s);
    }
  }

  lemma ResultsKeepsMain(s: State)
    requires Inv(s)
    ensures MainInv(ResultsStep(s)) && CountInv(ResultsStep(s))
  {
    if s.collected < |s.jobs| {
      CurrentJob(s);
    }
    if s.main.Scan? {
      FreeStays(s.slots, ResultsStep(s).slots, s.main.i);
    }
  }

  lemma ResultsKeepsInv(s: State)
    requires Inv(s)
    ensures Inv(ResultsStep(s))
  {
    var s' := ResultsStep(s);
    ResultsKeepsMain(s);
    forall w | Freed(s') <= w < s'.launched
      ensures ActiveInv(s', w)
    {
      ResultsKeepsActive(s, w);
    }
    forall i | 0 <= i < |s'.slots|
      ensures SlotInv(s', i)
    {
      ResultsKeepsSlot(s, i);
    }
    forall w | 0 <= w < |s'.jobs|
      ensures JobInv(s', w)
    {
      ResultsKeepsJob(s, w);
    }
  }

  // -------------------------------------------------------------- main steps

  /** A set that a sequence maps T onto is not larger than T. */
  lemma {:induction false} ImageIsNotLarger(S: set<nat>, T: set<nat>, h: seq<nat>)
    requires forall i :: i in S ==> exists w :: w in T && w < |h| && h[w] == i
    ensures |S| <= |T|
    decreases T
  {
    if w :| w in T {
      var S' := if w < |h| then S - {h[w]} else S;
      ImageIsNotLarger(S', T - {w}, h);
    } else {
      assert S == {};
    }
  }

  ghost function Range(lo: nat, hi: nat): (r: set<nat>)
    requires lo <= hi
    ensures |r| == hi - lo && forall w :: w in r <==> lo <= w < hi
    decreases hi - lo
  {
    if lo == hi then {} else Range(lo, hi - 1) + {hi - 1}
  }

  /** A permit stands for a free slot: the jobs that hold one are fewer than the slots. */
  lemma SlotsAreLeft(s: State)
    requires Inv(s) && s.main == CountUsed
    ensures FreeFrom(s.slots, 0)
  {
    if !FreeFrom(s.slots, 0) {
      var S, T := Range(0, |s.slots|), Range(Freed(s), s.launched);
      forall i | i in S
        ensures exists w :: w in T && w < |s.home| && s.home[w] == i
      {
        assert SlotInv(s, i) && s.slots[i].taken;
        assert s.slots[i].w in T;
      }
      ImageIsNotLarger(S, T, s.home);
    }
  }

  lemma MainKeepsActive(s: State, w: nat)
    requires Inv(s) && Freed(s) <= w < MainStep(s).launched
    ensures var s' := MainStep(s);
      |s'.home| == s'.launched <= |s'.jobs| && w < s'.launched && ActiveInv(s', w)
  {
    if w < s.launched {
      assert ActiveInv(s, w);
    } else {
      assert JobInv(s, w);
      assert SlotInv(s, s.main.i);
    }
  }

  lemma MainKeepsSlot(s: State, i: nat)
    requires Inv(s) && i < |s.slots|
    ensures var s' := MainStep(s);
      |s'.home| == s'.launched && i < |s'.slots| && SlotInv(s', i)
  {
    assert SlotInv(s, i);
  }

  lemma MainKeepsJob(s: State, w: nat)
    requires Inv(s) && w < |s.jobs|
    ensures w < |MainStep(s).jobs| && JobInv(MainStep(s), w)
  {
    assert JobInv(s, w);
  }

  lemma MainKeepsMain(s: State)
    requires Inv(s)
    ensures MainInv(MainStep(s)) && CountInv(MainStep(s))
  {
    if s.main == CountUsed {
      SlotsAreLeft(s);
    } else if s.main.Scan? {
      var f :| s.main.i <= f < |s.slots| && !s.slots[f].taken;
      assert s.slots[s.main.i].taken ==> s.main.i < f;
    }
  }

  lemma MainKeepsInv(s: State)
    requires Inv(s)
    ensures Inv(MainStep(s))
  {
    var s' := MainStep(s);
    MainKeepsMain(s);
    forall w | Freed(s') <= w < s'.launched
      ensures ActiveInv(s', w)
    {
      MainKeepsActive(s, w);
    }
    forall i | 0 <= i < |s'.slots|
      ensures SlotInv(s', i)
    {
      MainKeepsSlot(s, i);
    }
    forall w | 0 <= w < |s'.jobs|
      ensures JobInv(s', w)
    {
      MainKeepsJob(s, w);
    }
  }

  lemma NextKeepsInv(s: State, a: Action)
    requires Inv(s)
    ensures Inv(Next(s, a))
  {
    match a {
      case RunMain => MainKeepsInv(s);
      case RunResults => ResultsKeepsInv(s);
      case RunWorker(i) => if i < |s.slots| { WorkerKeepsInv(s, i); }
    }
  }

  ghost predicate SameProgram(s: State, x: State) {
    |s.slots| == |x.slots| && |s.jobs| == |x.jobs|
  }

  lemma {:induction false} ProgramStays(s: State, schedule: seq<Action>)
    ensures SameProgram(Exec(Next, s, schedule), s)
    decreases |schedule|
  {
    if schedule != [] {
      ProgramStays(s, schedule[..|schedule| - 1]);
    }
  }

  lemma Reachable(slots: nat, jobs: nat, schedule: seq<Action>)
    ensures var s := Exec(Next, Init(slots, jobs), schedule);
      Inv(s) && SameProgram(s, Init(slots, jobs))
  {
    forall x: State, a: Action | Inv(x)
      ensures Inv(Next(x, a))
    {
      NextKeepsInv(x, a);
    }
    Invariance(Next, Inv, Init(slots, jobs), schedule);
    ProgramStays(Init(slots, jobs), schedule);
  }

  // ------------------------------------------------------------ main theorems

  /** The branch that should never happen never does, although slots are freed
      while the main thread scans for a free one. */
  lemma FreeSlotIsAlwaysFound(slots: nat, jobs: nat, schedule: seq<Action>)
    ensures Exec(Next, Init(slots, jobs), schedule).main != NotFound
  {
    Reachable(slots, jobs, schedule);
  }

  /** Where the main thread's permit stands: for a slot that its scan has still to
      come to, for the one it has found, or for the one it has allocated. */
  ghost predicate PermitIsGood(s: State) {
    match s.main
    case CountUsed => FreeFrom(s.slots, 0)
    case Scan(i) => FreeFrom(s.slots, i)
    case Claim(i) => i < |s.slots| && !s.slots[i].taken
    case SetJob(i) => i < |s.slots| && s.slots[i].taken && s.slots[i].worker == NoWorker
    case Create(i) => i < |s.slots| && s.slots[i].taken && s.slots[i].worker == NoWorker
    case _ => !HasPermit(s.main)
  }

  /** In every run a permit the main thread holds is good for a slot, from its
      sem_wait to the creation of the worker. */
  lemma PermitMeansFreeSlot(slots: nat, jobs: nat, schedule: seq<Action>)
    ensures PermitIsGood(Exec(Next, Init(slots, jobs), schedule))
  {
    var s := Exec(Next, Init(slots, jobs), schedule);
    Reachable(slots, jobs, schedule);
    if s.main == CountUsed {
      SlotsAreLeft(s);
    } else if s.main.SetJob? || s.main.Create? {
      assert SlotInv(s, s.main.i);
    }
  }

  lemma StepKeepsJobNumber(s: State, a: Action, i: nat)
    requires Inv(s) && i < |s.slots| && s.slots[i].worker != NoWorker
    ensures |Next(s, a).slots| == |s.slots| && Next(s, a).slots[i].w == s.slots[i].w
    ensures forall k :: 0 <= k < |s.slots| && k != i && s.slots[k].worker != NoWorker ==>
              s.slots[k].w != s.slots[i].w
  {
    assert SlotInv(s, i);
    forall k | 0 <= k < |s.slots| && k != i && s.slots[k].worker != NoWorker
      ensures s.slots[k].w != s.slots[i].w
    {
      assert SlotInv(s, k);
    }
  }

  /** As long as the worker of a slot has not been joined, no step of any thread
      changes the slot's job number, which the worker reads more than once, and
      no other slot holds the same job. */
  lemma JobNumberIsStable(slots: nat, jobs: nat, schedule: seq<Action>, a: Action, i: nat)
    requires i < slots
    ensures var s := Exec(Next, Init(slots, jobs), schedule);
      && |s.slots| == slots
      && (s.slots[i].worker != NoWorker ==>
            && |Next(s, a).slots| == slots && Next(s, a).slots[i].w == s.slots[i].w
            && forall k :: 0 <= k < slots && k != i && s.slots[k].worker != NoWorker ==>
                 s.slots[k].w != s.slots[i].w)
  {
    var s := Exec(Next, Init(slots, jobs), schedule);
    Reachable(slots, jobs, schedule);
    if s.slots[i].worker != NoWorker {
      StepKeepsJobNumber(s, a, i);
    }
  }

  ghost predicate Forward(before: JobState, after: JobState) {
    after == before || (before == Idle && after == Busy) || (before == Busy && after == Finished)
  }

  lemma StepForward(s: State, a: Action, w: nat)
    requires Inv(s) && w < |s.jobs|
    ensures |Next(s, a).jobs| == |s.jobs| && Forward(s.jobs[w].state, Next(s, a).jobs[w].state)
    ensures w < s.collected ==> s.jobs[w].state == Finished
  {
    assert JobInv(s, w);
    if a.RunWorker? && a.i < |s.slots| && s.slots[a.i].worker != NoWorker {
      WorkerJob(s, a.i);
    }
  }

  /** A job is idle, then busy, then finished, and it is finished when its
      result is collected. */
  lemma JobsGoForward(slots: nat, jobs: nat, schedule: seq<Action>, a: Action, w: nat)
    requires w < jobs
    ensures var s := Exec(Next, Init(slots, jobs), schedule);
      && |s.jobs| == |Next(s, a).jobs| == jobs
      && Forward(s.jobs[w].state, Next(s, a).jobs[w].state)
      && (w < s.collected ==> s.jobs[w].state == Finished)
  {
    var s := Exec(Next, Init(slots, jobs), schedule);
    Reachable(slots, jobs, schedule);
    StepForward(s, a, w);
  }

  /** Jobs that have a permit, and the main thread if it has got one for the next. */
  ghost function PermitsOut(s: State): int {
    s.launched - s.collected + if HasPermit(s.main) then 1 else 0
  }

  ghost predicate IsGreatest(max: int, outs: seq<int>) {
    if outs == [] then max == 0 else max in outs && forall i :: 0 <= i < |outs| ==> outs[i] <= max
  }

  /** Once counted, and the job not yet launched. */
  ghost predicate HasCounted(m: Main) {
    m.Scan? || m.Claim? || m.SetJob? || m.Create?
  }

  ghost predicate ReadInv(s: State) {
    && IsGreatest(s.maxUsed, s.outs)
    && (forall i :: 0 <= i < |s.outs| ==> 1 <= s.outs[i] <= s.peak)
    && |s.outs| == s.launched + (if HasCounted(s.main) then 1 else 0)
    && PermitsOut(s) <= s.peak
  }

  lemma GreatestOneMore(max: int, outs: seq<int>, x: int)
    requires IsGreatest(max, outs) && x >= 1
    ensures IsGreatest(if x > max then x else max, outs + [x])
  {
    assert (outs + [x])[|outs|] == x;
    assert forall y :: y in outs ==> y in outs + [x];
  }

  lemma CountKeepsReads(s: State)
    requires CountInv(s) && ReadInv(s) && s.main == CountUsed
    ensures ReadInv(MainStep(s))
  {
    GreatestOneMore(s.maxUsed, s.outs, s.launched + 1 - s.collected);
  }

  lemma MainKeepsReads(s: State)
    requires CountInv(s) && MainInv(s) && ReadInv(s) && s.main != CountUsed
    ensures ReadInv(MainStep(s))
  {
  }

  lemma NextKeepsReads(s: State, a: Action)
    requires Inv(s) && ReadInv(s)
    ensures ReadInv(Next(s, a))
  {
    match a {
      case RunMain =>
        if s.main == CountUsed {
          CountKeepsReads(s);
        } else {
          MainKeepsReads(s);
        }
      case RunResults => assert ResultsStep(s).collected >= s.collected;
      case RunWorker(i) =>
    }
  }

  /** In every run what the main thread takes from the semaphore is the number of
      permits out, and the maximum it keeps is the greatest of the numbers it
      has counted, one for each job; so a run with a job reports 1 at least. */
  lemma MaximumIsGreatestRead(slots: nat, jobs: nat, schedule: seq<Action>)
    ensures var s := Exec(Next, Init(slots, jobs), schedule);
      && |s.slots| - s.available == PermitsOut(s)
      && IsGreatest(s.maxUsed, s.outs)
      && |s.outs| == s.launched + (if HasCounted(s.main) then 1 else 0)
      && (Final(s) && jobs >= 1 ==> s.maxUsed >= 1)
  {
    var s := Exec(Next, Init(slots, jobs), schedule);
    ReadsAreKept(slots, jobs, schedule);
    if Final(s) && jobs >= 1 {
      assert |s.outs| == jobs && s.outs[0] <= s.maxUsed;
    }
  }

  lemma ReadsAreKept(slots: nat, jobs: nat, schedule: seq<Action>)
    ensures var s := Exec(Next, Init(slots, jobs), schedule);
      Inv(s) && ReadInv(s) && |s.slots| == slots && |s.jobs| == jobs
  {
    Reachable(slots, jobs, []);
    forall x: State, a: Action | InvWithReads(x)
      ensures InvWithReads(Next(x, a))
    {
      NextKeepsInv(x, a);
      NextKeepsReads(x, a);
    }
    Invariance(Next, InvWithReads, Init(slots, jobs), schedule);
    Reachable(slots, jobs, schedule);
  }

  ghost predicate InvWithReads(s: State) {
    Inv(s) && ReadInv(s)
  }

  ghost predicate Final(s: State) {
    s.main == Ended
  }

  ghost predicate Complete(s: State) {
    && s.collected == s.launched == |s.jobs| && s.available == |s.slots|
    && (forall w :: 0 <= w < |s.jobs| ==> s.jobs[w].state == Finished)
    && (forall i :: 0 <= i < |s.slots| ==> !s.slots[i].taken && s.slots[i].worker == NoWorker)
    && s.maxUsed <= |s.slots| && s.maxUsed <= |s.jobs|
  }

  lemma EndIsComplete(s: State)
    requires Inv(s) && Final(s)
    ensures Complete(s)
  {
    forall w | 0 <= w < |s.jobs|
      ensures s.jobs[w].state == Finished
    {
      assert JobInv(s, w);
    }
    forall i | 0 <= i < |s.slots|
      ensures !s.slots[i].taken && s.slots[i].worker == NoWorker
    {
      assert SlotInv(s, i);
    }
  }

  /** At the end all jobs are finished and collected and all slots and permits
      are back; never were more slots in use than there are slots or jobs. */
  lemma AllCollectedAtEnd(slots: nat, jobs: nat, schedule: seq<Action>)
    requires Final(Exec(Next, Init(slots, jobs), schedule))
    ensures var s := Exec(Next, Init(slots, jobs), schedule);
      Complete(s) && |s.slots| == slots && |s.jobs| == jobs
  {
    Reachable(slots, jobs, schedule);
    EndIsComplete(Exec(Next, Init(slots, jobs), schedule));
  }

  // ----------------------------------------------------------------- progress

  predicate CanStep(s: State, a: Action) {
    Next(s, a) != s
  }

  /** Collecting in order cannot deadlock, even with fewer slots than jobs. */
  lemma SomebodyCanStep(s: State) returns (a: Action)
    requires Inv(s) && !Final(s) && |s.slots| >= 1
    ensures CanStep(s, a)
  {
    if MainStep(s) != s {
      a := RunMain;
    } else {
      assert s.main == AwaitSlot || s.main == JoinResults;
      assert s.collected < s.launched;
      CurrentJob(s);
      if ResultsStep(s) != s {
        a := RunResults;
      } else {
        a := RunWorker(s.home[s.collected]);
        BlockedResultsHaveAWorker(s);
      }
    }
  }

  lemma BlockedResultsHaveAWorker(s: State)
    requires Inv(s) && s.collected < s.launched && ResultsStep(s) == s
    ensures s.home[s.collected] < |s.slots| && WorkerStep(s, s.home[s.collected]) != s
  {
    CurrentJob(s);
    var i := s.home[s.collected];
    assert !s.slots[i].worker.NoWorker? && !s.slots[i].worker.Exited?;
    assert WorkerStep(s, i).slots[i].worker != s.slots[i].worker;
  }

  lemma NoDeadlock(slots: nat, jobs: nat, schedule: seq<Action>)
    requires slots >= 1
    ensures var s := Exec(Next, Init(slots, jobs), schedule);
      Final(s) || exists a: Action :: CanStep(s, a)
  {
    Reachable(slots, jobs, schedule);
    if !Final(Exec(Next, Init(slots, jobs), schedule)) {
      var a := SomebodyCanStep(Exec(Next, Init(slots, jobs), schedule));
    }
  }

  ghost function WorkerRank(x: Slot): int {
    match x.worker
    case NoWorker => 0
    case ReadJob => 7
    case WriteIndex(_) => 6
    case PostStarted(_) => 5
    case MarkBusy(_) => 4
    case Compute(_) => 3
    case MarkDone(_) => 2
    case Exited => 1
  }

  /** Steps to the next launch, with the scan of up to n slots. */
  ghost function MainRank(m: Main, n: nat): int {
    match m
    case AwaitSlot => n + 13
    case CountUsed => n + 12
    case Scan(i) => if i <= n then n + 11 - i else 11
    case Claim(i) => 10
    case SetJob(i) => 9
    case Create(i) => 8
    case NotFound => 0
    case JoinResults => n + 13
    case Ended => n + 12
  }

  ghost function ResultsRank(r: Results): int {
    match r
    case AwaitStart => 4
    case JoinWorker => 3
    case FreeSlot => 2
    case PostSlot => 1
    case AllCollected => 4
  }

  ghost function MainPart(s: State): int {
    (|s.jobs| - s.launched) * (|s.slots| + 13) + MainRank(s.main, |s.slots|)
  }

  ghost function ResultsPart(s: State): int {
    4 * (|s.jobs| - s.collected) + ResultsRank(s.results)
  }

  ghost function Measure(s: State): nat {
    var m := MainPart(s) + ResultsPart(s) + Sum(WorkerRank, s.slots);
    if m < 0 then 0 else m
  }

  lemma PartsAreNotNegative(s: State)
    requires Inv(s)
    ensures MainPart(s) >= 0 && ResultsPart(s) >= 0 && Sum(WorkerRank, s.slots) >= 0
  {
    assert (|s.jobs| - s.launched) * (|s.slots| + 13) >= 0;
    SumIsNotNegative(WorkerRank, s.slots);
  }

  lemma SlotRanks(slots: seq<Slot>, i: nat, x: Slot)
    requires i < |slots|
    ensures Sum(WorkerRank, slots[i := x]) == Sum(WorkerRank, slots) - WorkerRank(slots[i]) + WorkerRank(x)
  {
    SumUpdate(WorkerRank, slots, i, x);
  }

  lemma CreatePartFalls(s: State, i: nat)
    requires Inv(s) && s.main == Create(i)
    ensures var s' := MainStep(s);
      MainPart(s') + Sum(WorkerRank, s'.slots) < MainPart(s) + Sum(WorkerRank, s.slots)
  {
    assert SlotInv(s, i);
    SlotRanks(s.slots, i, MainStep(s).slots[i]);
    assert (|s.jobs| - s.launched - 1) * (|s.slots| + 13)
        == (|s.jobs| - s.launched) * (|s.slots| + 13) - (|s.slots| + 13);
  }

  lemma MainPartFalls(s: State)
    requires Inv(s)
    ensures var s' := MainStep(s);
      && ResultsPart(s') == ResultsPart(s)
      && (s' == s || MainPart(s') + Sum(WorkerRank, s'.slots) < MainPart(s) + Sum(WorkerRank, s.slots))
  {
    if s.main.Create? {
      CreatePartFalls(s, s.main.i);
    } else if s.main.Claim? || s.main.SetJob? {
      SlotRanks(s.slots, s.main.i, MainStep(s).slots[s.main.i]);
    }
  }

  lemma ResultsPartFalls(s: State)
    requires Inv(s)
    ensures var s' := ResultsStep(s);
      && MainPart(s') == MainPart(s)
      && (s' == s || ResultsPart(s') + Sum(WorkerRank, s'.slots) < ResultsPart(s) + Sum(WorkerRank, s.slots))
  {
    if s.collected < |s.jobs| && s.jobs[s.collected].index < |s.slots| {
      var i := s.jobs[s.collected].index;
      SlotRanks(s.slots, i, ResultsStep(s).slots[i]);
    }
  }

  lemma WorkerKeepsParts(s: State, i: nat)
    requires i < |s.slots|
    ensures MainPart(WorkerStep(s, i)) == MainPart(s) && ResultsPart(WorkerStep(s, i)) == ResultsPart(s)
  {
    var s' := WorkerStep(s, i);
    assert |s'.jobs| == |s.jobs| && |s'.slots| == |s.slots|;
    assert s'.main == s.main && s'.launched == s.launched;
  }

  lemma WorkerRanksFall(s: State, i: nat)
    requires i < |s.slots|
    ensures var s' := WorkerStep(s, i);
      s' == s || Sum(WorkerRank, s'.slots) < Sum(WorkerRank, s.slots)
  {
    var x := WorkerStep(s, i).slots[i];
    SlotRanks(s.slots, i, x);
    assert WorkerStep(s, i).slots == s.slots[i := x];
  }

  lemma MeasureFalls(s: State, a: Action)
    requires Inv(s) && Inv(Next(s, a))
    ensures Measure(Next(s, a)) + (if CanStep(s, a) then 1 else 0) <= Measure(s)
  {
    PartsAreNotNegative(s);
    PartsAreNotNegative(Next(s, a));
    match a {
      case RunMain => MainPartFalls(s);
      case RunResults => ResultsPartFalls(s);
      case RunWorker(i) => if i < |s.slots| {
        WorkerKeepsParts(s, i);
        WorkerRanksFall(s, i);
      }
    }
  }

  /** Every run is finite and so, being never stuck, can be completed: a launch
      with its scan takes at most slots + 13 steps, its worker and the
      collection of its result are within that and four more. */
  lemma WorkIsBounded(slots: nat, jobs: nat, schedule: seq<Action>)
    ensures Work(Next, CanStep, Init(slots, jobs), schedule) <= (jobs + 1) * (slots + 17)
  {
    var s := Init(slots, jobs);
    Reachable(slots, jobs, []);
    SumBounds(WorkerRank, s.slots, 0, 0);
    assert jobs * (slots + 13) + (slots + 13) + 4 * jobs + 4 == (jobs + 1) * (slots + 17);
    forall x: State, a: Action | Inv(x)
      ensures Inv(Next(x, a))
      ensures Measure(Next(x, a)) + (if CanStep(x, a) then 1 else 0) <= Measure(x)
    {
      NextKeepsInv(x, a);
      MeasureFalls(x, a);
    }
    BoundedWork(Next, Inv, CanStep, Measure, s, schedule);
  }

  // -------------------------------------------------------------- the program

  /** The arrays of slots and jobs, the semaphore and the threads. */
  class Pool {
    const threads: array<Slot>
    const work: array<Job>
    var threadsAvailable: nat
    var maxThreadsUsed: int
    var main: Main
    var launched: nat
    var results: Results
    var collected: nat
    ghost var home: seq<nat>
    ghost var outs: seq<int>
    ghost var peak: int

    ghost function View(): State
      reads this, threads, work
    {
      State(threads[..], work[..], threadsAvailable, maxThreadsUsed, main, launched, results, collected, home,
            outs, peak)
    }

    constructor (numThreads: nat, numWork: nat)
      ensures fresh(threads) && fresh(work)
      ensures View() == Init(numThreads, numWork)
    {
      threads := new Slot[numThreads](_ => Slot(false, 0, NoWorker));
      work := new Job[numWork](_ => Job(0, 0, Idle));
      threadsAvailable, maxThreadsUsed := numThreads, 0;
      main, launched := NextLaunch(0, numWork), 0;
      results, collected := NextResult(0, numWork), 0;
      home, outs, peak := [], [], 0;
      new;
      assert threads[..] == seq(numThreads, _ => Slot(false, 0, NoWorker));
      assert work[..] == seq(numWork, _ => Job(0, 0, Idle));
    }

    method LaunchStep()
      modifies this, threads
      ensures View() == MainStep(old(View()))
    {
      match main {
        case AwaitSlot =>
          if threadsAvailable > 0 {
            threadsAvailable := threadsAvailable - 1;
            main := CountUsed;
            if launched + 1 - collected > peak {
              peak := launched + 1 - collected;
            }
          }
        case CountUsed =>
          var i := threadsAvailable;
          if threads.Length - i > maxThreadsUsed {
            maxThreadsUsed := threads.Length - i;
          }
          main := Scan(0);
          outs := outs + [launched + 1 - collected];
        case Scan(i) =>
          if i >= threads.Length {
            main := NotFound;
          } else if threads[i].taken {
            main := Scan(i + 1);
          } else {
            main := Claim(i);
          }
        case Claim(i) =>
          if i < threads.Length {
            threads[i] := threads[i].(taken := true);
            main := SetJob(i);
          }
        case SetJob(i) =>
          if i < threads.Length {
            threads[i] := threads[i].(w := launched);
            main := Create(i);
          }
        case Create(i) =>
          if i < threads.Length {
            threads[i] := threads[i].(worker := ReadJob);
            home := home + [i];
            launched := launched + 1;
            main := NextLaunch(launched, work.Length);
          }
        case JoinResults =>
          if results == AllCollected {
            main := Ended;
          }
        case NotFound | Ended =>
      }
    }

    method CollectStep()
      modifies this, threads, work
      ensures View() == ResultsStep(old(View()))
    {
      var r := collected;
      if r < work.Length && work[r].index < threads.Length {
        var i := work[r].index;
        match results {
          case AwaitStart =>
            if work[r].started > 0 {
              work[r] := work[r].(started := work[r].started - 1);
              results := JoinWorker;
            }
          case JoinWorker =>
            if threads[i].worker == Exited {
              threads[i] := threads[i].(worker := NoWorker);
              results := FreeSlot;
            }
          case FreeSlot =>
            threads[i] := threads[i].(taken := false);
            results := PostSlot;
          case PostSlot =>
            threadsAvailable := threadsAvailable + 1;
            collected := r + 1;
            results := NextResult(collected, work.Length);
          case AllCollected =>
        }
      }
    }

    method WorkStep(i: nat)
      requires i < threads.Length
      modifies threads, work
      ensures View() == WorkerStep(old(View()), i)
    {
      var slot := threads[i];
      match slot.worker {
        case ReadJob => threads[i] := slot.(worker := WriteIndex(slot.w));
        case WriteIndex(w) =>
          if w < work.Length {
            work[w] := work[w].(index := i);
            threads[i] := slot.(worker := PostStarted(w));
          }
        case PostStarted(w) =>
          if w < work.Length {
            work[w] := work[w].(started := work[w].started + 1);
            threads[i] := slot.(worker := MarkBusy(w));
          }
        case MarkBusy(w) =>
          if slot.w < work.Length {
            work[slot.w] := work[slot.w].(state := Busy);
            threads[i] := slot.(worker := Compute(w));
          }
        case Compute(w) => threads[i] := slot.(worker := MarkDone(w));
        case MarkDone(w) =>
          if slot.w < work.Length {
            work[slot.w] := work[slot.w].(state := Finished);
            threads[i] := slot.(worker := Exited);
          }
        case NoWorker | Exited =>
      }
    }

    /** Plays a schedule from the start. The free slot is always found, and the
        main thread ends only with every job finished and every slot free. */
    method Play(schedule: seq<Action>)
      requires View() == Init(threads.Length, work.Length)
      modifies this, threads, work
      ensures View() == Exec(Next, old(View()), schedule)
      ensures main != NotFound
      ensures main == Ended ==> Complete(View())
      ensures IsGreatest(maxThreadsUsed, outs) && |outs| >= launched
      ensures main == Ended && work.Length >= 1 ==> maxThreadsUsed >= 1
    {
      for n := 0 to |schedule|
        invariant View() == Exec(Next, old(View()), schedule[..n])
      {
        match schedule[n] {
          case RunMain => LaunchStep();
          case RunResults => CollectStep();
          case RunWorker(i) => if i < threads.Length { WorkStep(i); }
        }
        assert schedule[..n + 1][..n] == schedule[..n];
      }
      assert schedule[..|schedule|] == schedule;
      FreeSlotIsAlwaysFound(threads.Length, work.Length, schedule);
      MaximumIsGreatestRead(threads.Length, work.Length, schedule);
      if main == Ended {
        AllCollectedAtEnd(threads.Length, work.Length, schedule);
      }
    }
  }
}
