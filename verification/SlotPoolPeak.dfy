/** When the maximum of worker slots used at once that the slot pool reports is
    right.

    The main thread takes a permit first and then reads how many are left. If a
    slot is given back in between, the read misses the most permits out.
 */
module SlotPoolPeak {
  import opened Runs
  import opened SlotPool

  function Min(a: nat, b: nat): nat {
    if a < b then a else b
  }

  /** In every run the maximum is the peak, but for the moment between the permit
      and the read. */
  ghost predicate AlwaysRecorded(slots: nat, jobs: nat) {
    forall schedule: seq<Action> ::
      var s := Exec(Next, Init(slots, jobs), schedule);
      s.main != CountUsed ==> s.maxUsed == s.peak
  }

  /** Every run that ends reports the peak. */
  ghost predicate AlwaysReported(slots: nat, jobs: nat) {
    forall schedule: seq<Action> ::
      var s := Exec(Next, Init(slots, jobs), schedule);
      Final(s) ==> s.maxUsed == s.peak
  }

  // -------------------------------------------------------- one permit at most

  ghost predicate RightOrUnread(s: State) {
    s.peak <= 1 && (s.main != CountUsed ==> s.maxUsed == s.peak)
  }

  ghost predicate SolePermit(s: State) {
    InvWithReads(s) && (|s.slots| <= 1 || |s.jobs| <= 1) && RightOrUnread(s)
  }

  lemma MainKeepsSole(s: State)
    requires SolePermit(s)
    ensures RightOrUnread(MainStep(s))
  {
    if s.main == CountUsed {
      assert |s.slots| - s.available == PermitsOut(s) == s.peak == 1;
    }
  }

  lemma OnlyMainCounts(s: State, a: Action)
    requires !a.RunMain?
    ensures Next(s, a).main == s.main && Next(s, a).peak == s.peak && Next(s, a).maxUsed == s.maxUsed
  {
  }

  lemma SizesStay(s: State, a: Action)
    ensures |Next(s, a).slots| == |s.slots| && |Next(s, a).jobs| == |s.jobs|
  {
  }

  lemma NextKeepsSole(s: State, a: Action)
    requires SolePermit(s)
    ensures SolePermit(Next(s, a))
  {
    SizesStay(s, a);
    assert InvWithReads(Next(s, a)) by {
      NextKeepsInv(s, a);
      NextKeepsReads(s, a);
    }
    assert RightOrUnread(Next(s, a)) by {
      if a == RunMain {
        MainKeepsSole(s);
      } else {
        OnlyMainCounts(s, a);
      }
    }
  }

  lemma SoleIsRecorded(slots: nat, jobs: nat, schedule: seq<Action>)
    requires Min(slots, jobs) <= 1
    ensures SolePermit(Exec(Next, Init(slots, jobs), schedule))
  {
    ReadsAreKept(slots, jobs, []);
    forall s: State, a: Action | SolePermit(s)
      ensures SolePermit(Next(s, a))
    {
      NextKeepsSole(s, a);
    }
    Invariance(Next, SolePermit, Init(slots, jobs), schedule);
  }

  // ----------------------------------------------------- two permits at a time

  /** A run in which the main thread has launched one job and got the permit for
      the next. */
  ghost function TwoOutAt(n: nat, jobs: nat, i: nat): State
    requires n >= 2
  {
    var free := seq(n, _ => Slot(false, 0, NoWorker));
    var idle := seq(jobs, _ => Job(0, 0, Idle));
    if i == 0 then State(free, idle, n, 0, AwaitSlot, 0, AwaitStart, 0, [], [], 0)
    else if i == 1 then State(free, idle, n - 1, 1, Scan(0), 0, AwaitStart, 0, [], [1], 1)
    else if i == 2 then
      State(free[0 := Slot(true, 0, NoWorker)], idle, n - 1, 1, SetJob(0), 0, AwaitStart, 0, [], [1], 1)
    else
      State(free[0 := Slot(true, 0, ReadJob)], idle, n - 2, 1, CountUsed, 1, AwaitStart, 0, [0], [1], 2)
  }

  lemma CountFirst(n: nat, jobs: nat)
    requires n >= 2 && jobs >= 2
    ensures Exec(Next, TwoOutAt(n, jobs, 0), [RunMain, RunMain]) == TwoOutAt(n, jobs, 1)
  {
    ExecTwo(Next, TwoOutAt(n, jobs, 0), RunMain, RunMain);
  }

  lemma ClaimFirst(n: nat, jobs: nat)
    requires n >= 2 && jobs >= 2
    ensures Exec(Next, TwoOutAt(n, jobs, 1), [RunMain, RunMain]) == TwoOutAt(n, jobs, 2)
  {
    ExecTwo(Next, TwoOutAt(n, jobs, 1), RunMain, RunMain);
  }

  lemma LaunchFirst(n: nat, jobs: nat)
    requires n >= 2 && jobs >= 2
    ensures Exec(Next, TwoOutAt(n, jobs, 2), [RunMain, RunMain, RunMain]) == TwoOutAt(n, jobs, 3)
  {
    var s := TwoOutAt(n, jobs, 2);
    ExecTwo(Next, s, RunMain, RunMain);
    assert Exec(Next, s, [RunMain, RunMain]).slots == TwoOutAt(n, jobs, 3).slots;
    ExecOneMore(Next, s, [RunMain, RunMain], RunMain);
    assert [RunMain, RunMain] + [RunMain] == [RunMain, RunMain, RunMain];
  }

  /** The peak of 2 is lost and stays so if the main thread only goes on when
      all that it has launched is collected. */
  ghost predicate Lost(s: State) {
    Inv(s) && s.slots != [] && s.maxUsed == 1 && s.peak == 2
  }

  lemma WorkKeepsLost(s: State) returns (a: Action)
    requires Lost(s) && s.collected < s.launched
    ensures CanStep(s, a) && Lost(Next(s, a))
  {
    CurrentJob(s);
    a := RunResults;
    if ResultsStep(s) == s {
      BlockedResultsHaveAWorker(s);
      a := RunWorker(s.home[s.collected]);
    }
    NextKeepsInv(s, a);
  }

  lemma MainKeepsLost(s: State)
    requires Lost(s) && !Final(s) && s.collected == s.launched
    ensures CanStep(s, RunMain) && Lost(MainStep(s))
  {
    NextKeepsInv(s, RunMain);
    assert MainStep(s).main != s.main;
  }

  lemma EndsLost(s: State) returns (on: seq<Action>)
    requires Lost(s)
    ensures Lost(Exec(Next, s, on)) && Final(Exec(Next, s, on))
  {
    forall x: State | Lost(x) && !Final(x)
      ensures CanAdvance(Next, Lost, Measure, x)
    {
      var a := RunMain;
      if x.collected < x.launched {
        a := WorkKeepsLost(x);
      } else {
        MainKeepsLost(x);
      }
      MeasureFalls(x, a);
    }
    on := FinishKeeping(Next, Lost, Final, Measure, s);
  }

  lemma TwoOut(slots: nat, jobs: nat) returns (schedule: seq<Action>)
    requires slots >= 2 && jobs >= 2
    ensures Exec(Next, Init(slots, jobs), schedule) == TwoOutAt(slots, jobs, 3)
  {
    var s := Init(slots, jobs);
    var two, three := [RunMain, RunMain], [RunMain, RunMain, RunMain];
    assert s == TwoOutAt(slots, jobs, 0);
    CountFirst(slots, jobs);
    ClaimFirst(slots, jobs);
    LaunchFirst(slots, jobs);
    ExecConcat(Next, s, two, two);
    ExecConcat(Next, s, two + two, three);
    schedule := two + two + three;
  }

  lemma EndCanBeLost(slots: nat, jobs: nat) returns (schedule: seq<Action>)
    requires slots >= 2 && jobs >= 2
    ensures var s := Exec(Next, Init(slots, jobs), schedule);
      Final(s) && s.maxUsed == 1 && s.peak == 2
  {
    var first := TwoOut(slots, jobs);
    Reachable(slots, jobs, first);
    var on := EndsLost(TwoOutAt(slots, jobs, 3));
    ExecConcat(Next, Init(slots, jobs), first, on);
    schedule := first + on;
  }

  /** The maximum of slots used at once is right, while the program runs and
      when it ends, exactly if there is at most one slot or one job. */
  lemma MaximumIsRightIff(slots: nat, jobs: nat)
    ensures AlwaysRecorded(slots, jobs) <==> Min(slots, jobs) <= 1
    ensures AlwaysReported(slots, jobs) <==> Min(slots, jobs) <= 1
  {
    if Min(slots, jobs) <= 1 {
      forall schedule: seq<Action>
        ensures var s := Exec(Next, Init(slots, jobs), schedule);
          s.main != CountUsed ==> s.maxUsed == s.peak
      {
        SoleIsRecorded(slots, jobs, schedule);
      }
    } else {
      var schedule := EndCanBeLost(slots, jobs);
      assert Exec(Next, Init(slots, jobs), schedule).main == Ended;
    }
  }
}
