/** When the maximum of working threads that the queue-fed pool reports is right.

    Its update is a comparison and a later write, unprotected: a worker that has
    read a smaller count can write last.
 */
module QueuePoolPeak {
  import opened Runs
  import opened Sums
  import opened QueuePool

  /** Between the post of the counter and the end of the update. */
  predicate Recording(x: Worker) {
    x.GetUsed? || x.Compare? || x.WriteMax?
  }

  ghost predicate Settled(s: State) {
    forall i :: 0 <= i < |s.workers| ==> !Recording(s.workers[i])
  }

  /** In every run the maximum is the peak whenever no update is under way. */
  ghost predicate AlwaysRecorded(threads: nat, jobs: nat) {
    forall schedule: seq<Action> ::
      var s := Exec(Next, Init(threads, jobs), schedule);
      Settled(s) ==> s.maxUsed == s.peak
  }

  /** Every run that ends reports the peak. */
  ghost predicate AlwaysReported(threads: nat, jobs: nat) {
    forall schedule: seq<Action> ::
      var s := Exec(Next, Init(threads, jobs), schedule);
      Final(s) ==> s.maxUsed == s.peak
  }

  lemma FinalIsSettled(s: State)
    requires Inv(s) && Final(s)
    ensures Settled(s)
  {
    forall i | 0 <= i < |s.workers|
      ensures !Recording(s.workers[i])
    {
      assert WorkerInv(s, i);
      if !s.workers[i].Receive? {
        assert JobInv(s, s.workers[i].w);
      }
    }
  }

  // -------------------------------------------------------------- one worker

  /** The maximum is the peak, or the sole worker is about to make it so. */
  ghost predicate SoleWorker(s: State) {
    && Inv(s) && |s.workers| <= 1
    && if s.workers != [] && Recording(s.workers[0]) then
         s.peak == 1 && (s.workers[0].GetUsed? || s.workers[0].i == 1)
       else s.maxUsed == s.peak
  }

  lemma NextKeepsSole(s: State, a: Action)
    requires SoleWorker(s)
    ensures SoleWorker(Next(s, a))
  {
    NextKeepsInv(s, a);
    if s.workers != [] {
      assert WorkerInv(s, 0);
      SumAtLeastOne(Counted, s.workers, 0);
    }
  }

  lemma SoleIsRecorded(threads: nat, jobs: nat, schedule: seq<Action>)
    requires Min(threads, jobs) <= 1
    ensures SoleWorker(Exec(Next, Init(threads, jobs), schedule))
  {
    InitInv(threads, jobs);
    forall s: State, a: Action | SoleWorker(s)
      ensures SoleWorker(Next(s, a))
    {
      NextKeepsSole(s, a);
    }
    Invariance(Next, SoleWorker, Init(threads, jobs), schedule);
  }

  // ------------------------------------------------------- two workers or more

  /** Way points of a run in which the worker that has read 1 writes after the
      one that has read 2. */
  ghost function RaceAt(n: nat, jobs: nat, i: nat): State
    requires n >= 2
  {
    var idle := seq(jobs, _ => Job(Idle, 0));
    var all := seq(n, _ => Receive);
    var main := AfterSend(2, jobs);
    if i == 0 then State([], 0, 0, idle, all, Send, n, 0, 0, [], [], 0)
    else if i == 1 then State([0, 1], 0, 0, idle, all, main, n, 2, 0, [], [], 0)
    else if i == 2 then State([1], 1, 0, idle, all[0 := WriteMax(0, 1)], main, n, 2, 0, [0], [0], 1)
    else if i == 3 then
      State([], 2, 0, idle, all[0 := WriteMax(0, 1)][1 := WriteMax(1, 2)], main, n, 2, 0, [0, 1], [0, 1], 2)
    else
      State([], 2, 1, idle, all[0 := MarkBusy(0)][1 := MarkBusy(1)], main, n, 2, 0, [0, 1], [0, 1], 2)
  }

  ghost function RaceSteps(i: nat): seq<Action> {
    if i == 0 then [RunMain, RunMain]
    else if i == 1 then [RunWorker(0), RunWorker(0), RunWorker(0), RunWorker(0)]
    else if i == 2 then [RunWorker(1), RunWorker(1), RunWorker(1), RunWorker(1)]
    else [RunWorker(1), RunWorker(0)]
  }

  lemma SendTwo(n: nat, jobs: nat)
    requires n >= 2 && jobs >= 2
    ensures Exec(Next, RaceAt(n, jobs, 0), RaceSteps(0)) == RaceAt(n, jobs, 1)
  {
    ExecTwo(Next, RaceAt(n, jobs, 0), RunMain, RunMain);
  }

  lemma FirstReads(n: nat, jobs: nat)
    requires n >= 2 && jobs >= 2
    ensures Exec(Next, RaceAt(n, jobs, 1), RaceSteps(1)) == RaceAt(n, jobs, 2)
  {
    UpdateSteps(RaceAt(n, jobs, 1), 0);
  }

  lemma SecondReads(n: nat, jobs: nat)
    requires n >= 2 && jobs >= 2
    ensures Exec(Next, RaceAt(n, jobs, 2), RaceSteps(2)) == RaceAt(n, jobs, 3)
  {
    UpdateSteps(RaceAt(n, jobs, 2), 1);
  }

  /** A worker has taken a job and counted itself. */
  ghost function Counting(s: State, i: nat): State
    requires i < |s.workers| && s.queue != []
  {
    var w, used := s.queue[0], s.used + 1;
    s.(workers := s.workers[i := GetUsed(w)], queue := s.queue[1..], used := used,
       peak := Max(s.peak, used), received := s.received + [w], taker := s.taker + [i])
  }

  lemma CountSteps(s: State, i: nat)
    requires i < |s.workers| && i < s.created && s.workers[i] == Receive && s.queue != []
    ensures Exec(Next, s, [RunWorker(i), RunWorker(i)]) == Counting(s, i)
  {
    var a, w := RunWorker(i), s.queue[0];
    ExecTwo(Next, s, a, a);
    assert s.workers[i := PostUsed(w)][i := GetUsed(w)] == s.workers[i := GetUsed(w)];
  }

  /** It reads the count and finds the maximum too small. */
  lemma CompareSteps(s: State, i: nat)
    requires i < |s.workers| && i < s.created && s.workers[i].GetUsed? && s.used > s.maxUsed
    ensures var a, w := RunWorker(i), s.workers[i].w;
      Exec(Next, s, [a, a]) == s.(workers := s.workers[i := WriteMax(w, s.used)])
  {
    var a, w := RunWorker(i), s.workers[i].w;
    ExecTwo(Next, s, a, a);
    assert s.workers[i := Compare(w, s.used)][i := WriteMax(w, s.used)] == s.workers[i := WriteMax(w, s.used)];
  }

  lemma UpdateSteps(s: State, i: nat)
    requires i < |s.workers| && i < s.created && s.workers[i] == Receive && s.queue != []
    requires s.used >= s.maxUsed
    ensures var a, c := RunWorker(i), Counting(s, i);
      Exec(Next, s, [a, a, a, a]) == c.(workers := c.workers[i := WriteMax(s.queue[0], c.used)])
  {
    var a, c := RunWorker(i), Counting(s, i);
    assert [a, a] + [a, a] == [a, a, a, a];
    ExecConcat(Next, s, [a, a], [a, a]);
    CountSteps(s, i);
    assert c.workers[i] == GetUsed(s.queue[0]);
    CompareSteps(c, i);
  }

  lemma WriteInWrongOrder(n: nat, jobs: nat)
    requires n >= 2 && jobs >= 2
    ensures Exec(Next, RaceAt(n, jobs, 3), RaceSteps(3)) == RaceAt(n, jobs, 4)
  {
    ExecTwo(Next, RaceAt(n, jobs, 3), RunWorker(1), RunWorker(0));
    assert Exec(Next, RaceAt(n, jobs, 3), RaceSteps(3)).workers == RaceAt(n, jobs, 4).workers;
  }

  lemma CreateAll(threads: nat, jobs: nat) returns (schedule: seq<Action>)
    requires threads >= 2 && jobs >= 2
    ensures Exec(Next, Init(threads, jobs), schedule) == RaceAt(Min(threads, jobs), jobs, 0)
  {
    var s, n := Init(threads, jobs), Min(threads, jobs);
    schedule := [];
    for k := 0 to n
      invariant Exec(Next, s, schedule) == s.(created := k, main := AfterCreate(k, n, jobs))
    {
      ExecOneMore(Next, s, schedule, RunMain);
      schedule := schedule + [RunMain];
    }
  }

  /** The maximum is lost after a few steps, whatever else there is to do. */
  lemma MaximumCanBeLost(threads: nat, jobs: nat) returns (schedule: seq<Action>)
    requires threads >= 2 && jobs >= 2
    ensures Exec(Next, Init(threads, jobs), schedule) == RaceAt(Min(threads, jobs), jobs, 4)
  {
    var s, n := Init(threads, jobs), Min(threads, jobs);
    schedule := CreateAll(threads, jobs);
    for i := 0 to 4
      invariant Exec(Next, s, schedule) == RaceAt(n, jobs, i)
    {
      ExecConcat(Next, s, schedule, RaceSteps(i));
      if i == 0 {
        SendTwo(n, jobs);
      } else if i == 1 {
        FirstReads(n, jobs);
      } else if i == 2 {
        SecondReads(n, jobs);
      } else {
        WriteInWrongOrder(n, jobs);
      }
      schedule := schedule + RaceSteps(i);
    }
  }

  // ---------------------------------------------- a run that ends like that

  /** Has a job and has still to record it. */
  predicate Early(x: Worker) {
    x.PostUsed? || Recording(x)
  }

  /** The peak of 2 is lost and stays so: a worker that has still to record its
      job is the only one at work and so reads 1. */
  ghost predicate Lost(s: State) {
    && Inv(s) && s.maxUsed == 1 && s.peak == 2
    && (forall i :: 0 <= i < |s.workers| && Early(s.workers[i]) ==> Alone(s, i))
    && (forall i :: 0 <= i < |s.workers| ==> !s.workers[i].WriteMax?)
    && (forall i :: 0 <= i < |s.workers| && s.workers[i].Compare? ==> s.workers[i].i <= 1)
  }

  ghost predicate Alone(s: State, i: nat) {
    forall k :: 0 <= k < |s.workers| && k != i ==> s.workers[k] == Receive
  }

  lemma AloneUsesOne(s: State, i: nat)
    requires Inv(s) && i < |s.workers| && Alone(s, i)
    ensures s.used <= 1
  {
    var others := s.workers[i := Receive];
    SumUpdate(Counted, s.workers, i, Receive);
    SumBounds(Counted, others, 0, 0);
  }

  lemma AtWorkKeepsLost(s: State, i: nat)
    requires Lost(s) && i < |s.workers| && i < s.created && s.workers[i] != Receive
    ensures Lost(WorkerStep(s, i))
  {
    WorkerKeepsInv(s, i);
    if Alone(s, i) {
      AloneUsesOne(s, i);
    }
  }

  lemma ReceiveKeepsLost(s: State, i: nat)
    requires Lost(s) && i < |s.workers| && i < s.created
    requires forall k :: 0 <= k < |s.workers| ==> s.workers[k] == Receive
    ensures Lost(WorkerStep(s, i))
  {
    WorkerKeepsInv(s, i);
  }

  lemma OthersKeepLost(s: State, a: Action)
    requires Lost(s) && !a.RunWorker?
    ensures Lost(Next(s, a))
  {
    NextKeepsInv(s, a);
  }

  /** There is always a step that leaves the maximum lost. */
  lemma GoOn(s: State) returns (a: Action)
    requires Lost(s) && !Final(s)
    ensures CanStep(s, a) && Lost(Next(s, a))
  {
    if i :| 0 <= i < |s.workers| && s.workers[i] != Receive {
      a := RunWorker(i);
      assert WorkerInv(s, i);
      BusyWorkerCanStep(s, i);
      AtWorkKeepsLost(s, i);
    } else {
      a := SomebodyCanStep(s);
      if a.RunWorker? {
        ReceiveKeepsLost(s, a.i);
      } else {
        OthersKeepLost(s, a);
      }
    }
  }

  lemma EndsLost(s: State) returns (on: seq<Action>)
    requires Lost(s)
    ensures Lost(Exec(Next, s, on)) && Final(Exec(Next, s, on))
  {
    forall x: State | Lost(x) && !Final(x)
      ensures CanAdvance(Next, Lost, Measure, x)
    {
      var a := GoOn(x);
      MeasureFalls(x, a);
    }
    on := FinishKeeping(Next, Lost, Final, Measure, s);
  }

  lemma EndCanBeLost(threads: nat, jobs: nat) returns (schedule: seq<Action>)
    requires threads >= 2 && jobs >= 2
    ensures var s := Exec(Next, Init(threads, jobs), schedule);
      Final(s) && s.maxUsed == 1 && s.peak == 2
  {
    var first := MaximumCanBeLost(threads, jobs);
    Reachable(threads, jobs, first);
    var s := Exec(Next, Init(threads, jobs), first);
    var on := EndsLost(s);
    ExecConcat(Next, Init(threads, jobs), first, on);
    schedule := first + on;
  }

  /** The maximum of threads used at once is right, while the program runs and
      when it ends, exactly if there is at most one thread or one job. */
  lemma MaximumIsRightIff(threads: nat, jobs: nat)
    ensures AlwaysRecorded(threads, jobs) <==> Min(threads, jobs) <= 1
    ensures AlwaysReported(threads, jobs) <==> Min(threads, jobs) <= 1
  {
    if Min(threads, jobs) <= 1 {
      forall schedule: seq<Action>
        ensures var s := Exec(Next, Init(threads, jobs), schedule);
          (Settled(s) ==> s.maxUsed == s.peak) && (Final(s) ==> s.maxUsed == s.peak)
      {
        var s := Exec(Next, Init(threads, jobs), schedule);
        SoleIsRecorded(threads, jobs, schedule);
        if Final(s) {
          FinalIsSettled(s);
        }
      }
    } else {
      var schedule := EndCanBeLost(threads, jobs);
      var s := Exec(Next, Init(threads, jobs), schedule);
      Reachable(threads, jobs, schedule);
      FinalIsSettled(s);
    }
  }
}
