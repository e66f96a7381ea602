/** A counter under a mutex, incrementing threads and a watcher that waits on a
    condition variable until the counter reaches a threshold.

    The incrementers signal when the counter equals the threshold. The watcher
    tests the counter once, with `if` and not in a loop, so a wakeup of the
    condition variable without a signal lets it go on at once.
 */
module ThresholdWatch {
  import opened Runs
  import opened Sums

  datatype IncPc = Lock | Load | Store | Test | Signal | Unlock | Done

  datatype WatchPc = WLock | WTest | Waiting | Ready | WLoad | WStore | WUnlock | WDone

  datatype Owner = Nobody | Inc(i: nat) | Watcher

  /** `round` is the loop counter, `reg` the count that `count++` has loaded. */
  datatype Thread = Thread(pc: IncPc, round: nat, reg: int)

  datatype State = State(
    rounds: nat, threshold: int, spurious: bool, count: int, owner: Owner,
    incs: seq<Thread>, watch: WatchPc, watchReg: int)

  /** Wake is a wakeup without a signal; it happens only where `spurious` allows it. */
  datatype Action = Run(i: nat) | RunWatcher | Wake

  function Begin(round: nat, rounds: nat): Thread {
    Thread(if round < rounds then Lock else Done, round, 0)
  }

  function Init(threads: nat, rounds: nat, threshold: int, spurious: bool): State {
    State(rounds, threshold, spurious, 0, Nobody, seq(threads, _ => Begin(0, rounds)), WLock, 0)
  }

  function Put(s: State, i: nat, th: Thread): State
    requires i < |s.incs|
  {
    s.(incs := s.incs[i := th])
  }

  /** One step of inc_count(). */
  function IncStep(s: State, i: nat): State
    requires i < |s.incs|
  {
    var th := s.incs[i];
    match th.pc
    case Lock => if s.owner == Nobody then Put(s, i, th.(pc := Load)).(owner := Inc(i)) else s
    case Load => Put(s, i, th.(pc := Store, reg := s.count))
    case Store => Put(s, i, th.(pc := Test)).(count := th.reg + 1)
    case Test => Put(s, i, th.(pc := if s.count == s.threshold then Signal else Unlock))
    case Signal => Put(s, i, th.(pc := Unlock)).(watch := if s.watch == Waiting then Ready else s.watch)
    case Unlock => Put(s, i, Begin(th.round + 1, s.rounds)).(owner := Nobody)
    case Done => s
  }

  /** One step of watch_count(). */
  function WatchStep(s: State): State {
    match s.watch
    case WLock => if s.owner == Nobody then s.(owner := Watcher, watch := WTest) else s
    case WTest =>
      if s.count < s.threshold then s.(owner := Nobody, watch := Waiting) else s.(watch := WLoad)
    case Waiting => s
    case Ready => if s.owner == Nobody then s.(owner := Watcher, watch := WLoad) else s
    case WLoad => s.(watchReg := s.count, watch := WStore)
    case WStore => s.(count := s.watchReg + 100, watch := WUnlock)
    case WUnlock => s.(owner := Nobody, watch := WDone)
    case WDone => s
  }

  function Next(s: State, a: Action): State {
    match a
    case Run(i) => if i < |s.incs| then IncStep(s, i) else s
    case RunWatcher => WatchStep(s)
    case Wake => if s.spurious && s.watch == Waiting then s.(watch := Ready) else s
  }

  // ---------------------------------------------------------------- invariant

  ghost predicate Holding(pc: IncPc) {
    !pc.Lock? && !pc.Done?
  }

  ghost predicate WatcherHolding(pc: WatchPc) {
    pc.WTest? || pc.WLoad? || pc.WStore? || pc.WUnlock?
  }

  /** What a thread has added to the counter. */
  ghost function Added(th: Thread): int {
    th.round + if th.pc.Test? || th.pc.Signal? || th.pc.Unlock? then 1 else 0
  }

  ghost function Extra(pc: WatchPc): int {
    if pc.WUnlock? || pc.WDone? then 100 else 0
  }

  ghost predicate IncInv(s: State, i: nat)
    requires i < |s.incs|
  {
    var th := s.incs[i];
    && (Holding(th.pc) <==> s.owner == Inc(i))
    && th.round <= s.rounds && (th.pc == Done <==> th.round == s.rounds)
    && (th.pc == Store ==> th.reg == s.count)
    && (th.pc == Signal ==> s.count == s.threshold)
  }

  ghost predicate WatchInv(s: State) {
    && (WatcherHolding(s.watch) <==> s.owner == Watcher)
    && (s.owner.Inc? ==> s.owner.i < |s.incs|)
    && (s.watch == WStore ==> s.watchReg == s.count)
    // the watcher waits for an increment to come, or its signal is on the way
    && (s.watch == Waiting && s.count >= s.threshold ==>
          && s.count == s.threshold && s.owner.Inc?
          && (s.incs[s.owner.i].pc.Test? || s.incs[s.owner.i].pc.Signal?))
    && (!s.spurious && (s.watch.Ready? || s.watch.WLoad? || s.watch.WStore?) ==> s.count >= s.threshold)
  }

  ghost predicate Inv(s: State) {
    && (forall i :: 0 <= i < |s.incs| ==> IncInv(s, i))
    && WatchInv(s)
    && s.count == Sum(Added, s.incs) + Extra(s.watch)
  }

  lemma IncStepKeepsThreads(s: State, i: nat, j: nat)
    requires i < |s.incs| && j < |s.incs| && IncInv(s, i) && IncInv(s, j)
    ensures IncInv(IncStep(s, i), j)
  {
  }

  lemma IncStepKeepsWatch(s: State, i: nat)
    requires WatchInv(s) && i < |s.incs| && IncInv(s, i)
    ensures WatchInv(IncStep(s, i))
  {
  }

  lemma IncStepKeepsCount(s: State, i: nat)
    requires i < |s.incs| && IncInv(s, i) && s.count == Sum(Added, s.incs) + Extra(s.watch)
    ensures var s' := IncStep(s, i); s'.count == Sum(Added, s'.incs) + Extra(s'.watch)
  {
    var s' := IncStep(s, i);
    SumUpdate(Added, s.incs, i, s'.incs[i]);
    assert s.incs[i := s'.incs[i]] == s'.incs;
  }

  lemma IncStepKeepsInv(s: State, i: nat)
    requires Inv(s) && i < |s.incs|
    ensures Inv(IncStep(s, i))
  {
    var s' := IncStep(s, i);
    forall j | 0 <= j < |s'.incs|
      ensures IncInv(s', j)
    {
      IncStepKeepsThreads(s, i, j);
    }
    IncStepKeepsWatch(s, i);
    IncStepKeepsCount(s, i);
  }

  lemma WatchStepKeepsInv(s: State)
    requires Inv(s)
    ensures Inv(WatchStep(s))
  {
    var s' := WatchStep(s);
    forall j | 0 <= j < |s'.incs|
      ensures IncInv(s', j)
    {
      assert IncInv(s, j);
    }
  }

  lemma NextKeepsInv(s: State, a: Action)
    requires Inv(s)
    ensures Inv(Next(s, a))
  {
    match a {
      case Run(i) => if i < |s.incs| { IncStepKeepsInv(s, i); }
      case RunWatcher => WatchStepKeepsInv(s);
      case Wake => assert forall j :: 0 <= j < |s.incs| ==> IncInv(s, j) ==> IncInv(Next(s, a), j);
    }
  }

  lemma AddedIsBounded(s: State)
    requires Inv(s)
    ensures 0 <= Sum(Added, s.incs) <= s.rounds * |s.incs|
  {
    forall i | 0 <= i < |s.incs|
      ensures 0 <= Added(s.incs[i]) <= s.rounds
    {
      assert IncInv(s, i);
    }
    SumBounds(Added, s.incs, 0, s.rounds);
  }

  /** Threads that are done have added everything. */
  lemma AllAdded(s: State)
    requires Inv(s) && forall i :: 0 <= i < |s.incs| ==> s.incs[i].pc == Done
    ensures Sum(Added, s.incs) == s.rounds * |s.incs|
  {
    forall i | 0 <= i < |s.incs|
      ensures Added(s.incs[i]) == s.rounds
    {
      assert IncInv(s, i);
    }
    SumBounds(Added, s.incs, s.rounds, s.rounds);
  }

  ghost predicate SameProgram(s: State, t: State) {
    s.rounds == t.rounds && s.threshold == t.threshold && s.spurious == t.spurious && |s.incs| == |t.incs|
  }

  lemma {:induction false} ProgramStays(s: State, schedule: seq<Action>)
    ensures SameProgram(Exec(Next, s, schedule), s)
    decreases |schedule|
  {
    if schedule != [] {
      ProgramStays(s, schedule[..|schedule| - 1]);
    }
  }

  lemma Reachable(threads: nat, rounds: nat, threshold: int, spurious: bool, schedule: seq<Action>)
    ensures var s := Exec(Next, Init(threads, rounds, threshold, spurious), schedule);
      Inv(s) && SameProgram(s, Init(threads, rounds, threshold, spurious))
  {
    var s := Init(threads, rounds, threshold, spurious);
    SumBounds(Added, s.incs, 0, 0);
    InvStays();
    Invariance(Next, Inv, s, schedule);
    ProgramStays(s, schedule);
  }

  lemma InvStays()
    ensures forall s: State, a: Action {:trigger Next(s, a)} :: Inv(s) ==> Inv(Next(s, a))
  {
    forall s: State, a: Action | Inv(s)
      ensures Inv(Next(s, a))
    {
      NextKeepsInv(s, a);
    }
  }

  // ------------------------------------------------------------ main theorems

  ghost predicate Final(s: State) {
    s.watch == WDone && forall i :: 0 <= i < |s.incs| ==> s.incs[i].pc == Done
  }

  /** A thread can go on without a wakeup that nobody sent. */
  predicate CanStep(s: State, a: Action) {
    a != Wake && Next(s, a) != s
  }

  ghost predicate Stuck(s: State) {
    !Final(s) && forall a: Action :: !CanStep(s, a)
  }

  /** When all threads are done every increment and the watcher's 100 are in
      the counter, with or without wakeups that nobody sent. */
  lemma FinalCount(threads: nat, rounds: nat, threshold: int, spurious: bool, schedule: seq<Action>)
    requires Final(Exec(Next, Init(threads, rounds, threshold, spurious), schedule))
    ensures Exec(Next, Init(threads, rounds, threshold, spurious), schedule).count == rounds * threads + 100
  {
    var s := Exec(Next, Init(threads, rounds, threshold, spurious), schedule);
    Reachable(threads, rounds, threshold, spurious, schedule);
    AllAdded(s);
  }

  /** The watcher is about to add its 100. */
  ghost predicate Acts(s: State) {
    s.watch == WLoad || s.watch == WStore
  }

  ghost predicate AlwaysAbove(threads: nat, rounds: nat, threshold: int, spurious: bool) {
    forall schedule: seq<Action> ::
      var s := Exec(Next, Init(threads, rounds, threshold, spurious), schedule);
      Acts(s) ==> s.count >= threshold
  }

  /** Without such wakeups the watcher adds its 100 only to a counter that has
      reached the threshold. */
  lemma WatcherActsAboveThreshold(threads: nat, rounds: nat, threshold: int, spurious: bool, schedule: seq<Action>)
    requires !spurious || threshold <= 0
    ensures var s := Exec(Next, Init(threads, rounds, threshold, spurious), schedule);
      Acts(s) ==> s.count >= threshold
  {
    Reachable(threads, rounds, threshold, spurious, schedule);
    AddedIsBounded(Exec(Next, Init(threads, rounds, threshold, spurious), schedule));
  }

  /** With them it acts on a counter that is still 0, whatever the program. */
  lemma WokenTooEarly(threads: nat, rounds: nat, threshold: int) returns (schedule: seq<Action>)
    requires threshold >= 1
    ensures var s := Exec(Next, Init(threads, rounds, threshold, true), schedule);
      Acts(s) && s.count == 0
  {
    schedule := [RunWatcher, RunWatcher, Wake, RunWatcher];
    ExecFour(Next, Init(threads, rounds, threshold, true), RunWatcher, RunWatcher, Wake, RunWatcher);
  }

  /** In every run the watcher acts at or above the threshold exactly if no
      wakeup comes without a signal or it never has to wait. */
  lemma AlwaysAboveIff(threads: nat, rounds: nat, threshold: int, spurious: bool)
    ensures AlwaysAbove(threads, rounds, threshold, spurious) <==> !spurious || threshold <= 0
  {
    if !spurious || threshold <= 0 {
      forall schedule: seq<Action>
        ensures var s := Exec(Next, Init(threads, rounds, threshold, spurious), schedule);
          Acts(s) ==> s.count >= threshold
      {
        WatcherActsAboveThreshold(threads, rounds, threshold, spurious, schedule);
      }
    } else {
      var schedule := WokenTooEarly(threads, rounds, threshold);
    }
  }

  lemma SomebodyCanStep(s: State) returns (a: Action)
    requires Inv(s) && !Final(s) && s.threshold <= s.rounds * |s.incs|
    ensures CanStep(s, a)
  {
    if s.owner.Inc? {
      a := Run(s.owner.i);
      assert IncInv(s, s.owner.i);
      assert Next(s, a).incs[s.owner.i] != s.incs[s.owner.i];
    } else if WatcherHolding(s.watch) || s.watch == WLock || s.watch == Ready {
      a := RunWatcher;
    } else if i :| 0 <= i < |s.incs| && s.incs[i].pc != Done {
      a := Run(i);
      assert IncInv(s, i);
      assert Next(s, a).owner != s.owner;
    } else {
      AllAdded(s);
      assert false;
    }
  }

  /** No run is stuck, and so the wakeup is not lost, if the threshold can be
      reached at all. */
  lemma NeverStuck(threads: nat, rounds: nat, threshold: int, spurious: bool, schedule: seq<Action>)
    requires threshold <= rounds * threads
    ensures !Stuck(Exec(Next, Init(threads, rounds, threshold, spurious), schedule))
  {
    var s := Exec(Next, Init(threads, rounds, threshold, spurious), schedule);
    Reachable(threads, rounds, threshold, spurious, schedule);
    if !Final(s) {
      var a := SomebodyCanStep(s);
    }
  }

  // ----------------------------------------------------------------- progress

  ghost function IncRank(th: Thread, rounds: nat): int {
    7 * (rounds - th.round)
    + match th.pc
      case Lock => 0
      case Load => -1
      case Store => -2
      case Test => -3
      case Signal => -4
      case Unlock => -5
      case Done => 0
  }

  ghost function IncRanks(rounds: nat): Thread -> int {
    (th: Thread) => IncRank(th, rounds)
  }

  ghost function WatchRank(pc: WatchPc): nat {
    match pc
    case WLock => 7
    case WTest => 6
    case Waiting => 5
    case Ready => 4
    case WLoad => 3
    case WStore => 2
    case WUnlock => 1
    case WDone => 0
  }

  ghost function Measure(s: State): nat {
    var m := Sum(IncRanks(s.rounds), s.incs) + WatchRank(s.watch);
    if m < 0 then 0 else m
  }

  lemma RanksAreBounded(s: State)
    requires Inv(s)
    ensures 0 <= Sum(IncRanks(s.rounds), s.incs) <= 7 * s.rounds * |s.incs|
  {
    forall i | 0 <= i < |s.incs|
      ensures 0 <= IncRanks(s.rounds)(s.incs[i]) <= 7 * s.rounds
    {
      assert IncInv(s, i);
    }
    SumBounds(IncRanks(s.rounds), s.incs, 0, 7 * s.rounds);
  }

  lemma IncRanksFall(s: State, i: nat)
    requires Inv(s) && i < |s.incs|
    ensures var s' := IncStep(s, i);
      && (s' == s || Sum(IncRanks(s.rounds), s'.incs) < Sum(IncRanks(s.rounds), s.incs))
      && WatchRank(s'.watch) <= WatchRank(s.watch)
  {
    var th := IncStep(s, i).incs[i];
    assert IncInv(s, i);
    SumUpdate(IncRanks(s.rounds), s.incs, i, th);
    assert IncStep(s, i).incs == s.incs[i := th];
  }

  lemma LowerRanksLowerMeasure(s: State, s': State)
    requires Inv(s) && Inv(s') && s'.rounds == s.rounds
    requires Sum(IncRanks(s.rounds), s'.incs) < Sum(IncRanks(s.rounds), s.incs)
    requires WatchRank(s'.watch) <= WatchRank(s.watch)
    ensures Measure(s') < Measure(s)
  {
    RanksAreBounded(s);
    RanksAreBounded(s');
  }

  lemma WatchMeasureFalls(s: State, a: Action)
    requires Inv(s) && !a.Run?
    ensures Measure(Next(s, a)) + (if CanStep(s, a) then 1 else 0) <= Measure(s)
  {
    RanksAreBounded(s);
  }

  lemma MeasureFalls(s: State, a: Action)
    requires Inv(s)
    ensures Measure(Next(s, a)) + (if CanStep(s, a) then 1 else 0) <= Measure(s)
  {
    if a.Run? {
      if a.i < |s.incs| {
        IncStepKeepsInv(s, a.i);
        IncRanksFall(s, a.i);
        if IncStep(s, a.i) != s {
          LowerRanksLowerMeasure(s, IncStep(s, a.i));
        }
      }
    } else {
      WatchMeasureFalls(s, a);
    }
  }

  /** Every schedule has at most 7 * (rounds * threads + 1) steps of threads. */
  lemma WorkIsBounded(threads: nat, rounds: nat, threshold: int, spurious: bool, schedule: seq<Action>)
    ensures Work(Next, CanStep, Init(threads, rounds, threshold, spurious), schedule)
         <= 7 * rounds * threads + 7
  {
    var s := Init(threads, rounds, threshold, spurious);
    Reachable(threads, rounds, threshold, spurious, []);
    RanksAreBounded(s);
    forall x: State, a: Action | Inv(x)
      ensures Inv(Next(x, a))
      ensures Measure(Next(x, a)) + (if CanStep(x, a) then 1 else 0) <= Measure(x)
    {
      NextKeepsInv(x, a);
      MeasureFalls(x, a);
    }
    BoundedWork(Next, Inv, CanStep, Measure, s, schedule);
  }

  /** The watcher waits in a program whose threshold is out of reach. */
  ghost predicate WaitsInVain(s: State) {
    Inv(s) && !s.spurious && s.watch == Waiting && s.threshold > s.rounds * |s.incs|
  }

  ghost predicate Halted(s: State) {
    forall a: Action :: !CanStep(s, a)
  }

  lemma WaitingStaysInVain(s: State, a: Action)
    requires WaitsInVain(s)
    ensures WaitsInVain(Next(s, a))
  {
    NextKeepsInv(s, a);
    AddedIsBounded(s);
    if a.Run? && a.i < |s.incs| {
      assert IncInv(s, a.i);
    }
  }

  lemma RunsToAHalt(s: State) returns (on: seq<Action>)
    requires WaitsInVain(s)
    ensures var s' := Exec(Next, s, on); WaitsInVain(s') && Halted(s')
  {
    forall x: State, a: Action | WaitsInVain(x)
      ensures WaitsInVain(Next(x, a))
    {
      WaitingStaysInVain(x, a);
    }
    forall x: State | WaitsInVain(x) && !Halted(x)
      ensures CanImprove(Next, Measure, x)
    {
      var a: Action :| CanStep(x, a);
      MeasureFalls(x, a);
      ExecOne(Next, x, a);
      assert Measure(Exec(Next, x, [a])) < Measure(x);
    }
    on := CanFinish(Next, WaitsInVain, Halted, Measure, s);
    Invariance(Next, WaitsInVain, s, on);
  }

  ghost function NoWakes(schedule: seq<Action>): seq<Action>
    decreases |schedule|
  {
    if schedule == [] then []
    else
      var n := |schedule| - 1;
      if schedule[n] == Wake then NoWakes(schedule[..n]) else NoWakes(schedule[..n]) + [schedule[n]]
  }

  lemma IncIgnoresSpurious(s: State, i: nat, spurious: bool)
    requires i < |s.incs|
    ensures IncStep(s.(spurious := spurious), i) == IncStep(s, i).(spurious := spurious)
    ensures IncStep(s, i).spurious == s.spurious
  {
  }

  lemma WatchIgnoresSpurious(s: State, spurious: bool)
    ensures WatchStep(s.(spurious := spurious)) == WatchStep(s).(spurious := spurious)
    ensures WatchStep(s).spurious == s.spurious
  {
  }

  lemma StepIgnoresSpurious(s: State, a: Action, spurious: bool)
    requires a != Wake
    ensures Next(s.(spurious := spurious), a) == Next(s, a).(spurious := spurious)
    ensures Next(s, a).spurious == s.spurious
  {
    if a == RunWatcher {
      WatchIgnoresSpurious(s, spurious);
    } else if a.i < |s.incs| {
      IncIgnoresSpurious(s, a.i, spurious);
    }
  }

  /** A run without wakeups that nobody sent is possible where they are, too. */
  lemma {:induction false} WakesAreNotForced(s: State, schedule: seq<Action>, spurious: bool)
    requires !s.spurious
    ensures !Exec(Next, s, schedule).spurious
    ensures Exec(Next, s.(spurious := spurious), NoWakes(schedule))
         == Exec(Next, s, schedule).(spurious := spurious)
    decreases |schedule|
  {
    if schedule != [] {
      var n := |schedule| - 1;
      WakesAreNotForced(s, schedule[..n], spurious);
      if schedule[n] != Wake {
        ExecOneMore(Next, s.(spurious := spurious), NoWakes(schedule[..n]), schedule[n]);
        StepIgnoresSpurious(Exec(Next, s, schedule[..n]), schedule[n], spurious);
      }
    }
  }

  lemma StuckIgnoresSpurious(s: State, spurious: bool)
    requires Stuck(s)
    ensures Stuck(s.(spurious := spurious))
  {
    forall a: Action | a != Wake
      ensures !CanStep(s.(spurious := spurious), a)
    {
      StepIgnoresSpurious(s, a, spurious);
      assert !CanStep(s, a);
    }
  }

  ghost predicate CanGetStuck(threads: nat, rounds: nat, threshold: int, spurious: bool) {
    exists schedule: seq<Action> :: Stuck(Exec(Next, Init(threads, rounds, threshold, spurious), schedule))
  }

  lemma HangsOutOfReach(threads: nat, rounds: nat, threshold: int) returns (schedule: seq<Action>)
    requires threshold > rounds * threads
    ensures Stuck(Exec(Next, Init(threads, rounds, threshold, false), schedule))
  {
    var s := Init(threads, rounds, threshold, false);
    var first := [RunWatcher, RunWatcher];
    assert rounds * threads >= 0;
    ExecTwo(Next, s, RunWatcher, RunWatcher);
    Reachable(threads, rounds, threshold, false, first);
    var on := RunsToAHalt(Exec(Next, s, first));
    ExecConcat(Next, s, first, on);
    schedule := first + on;
  }

  /** Some run hangs exactly when the increments cannot reach the threshold;
      then the watcher, if it comes first, waits for a wakeup that nobody sends. */
  lemma StuckIffOutOfReach(threads: nat, rounds: nat, threshold: int, spurious: bool)
    ensures CanGetStuck(threads, rounds, threshold, spurious) <==> threshold > rounds * threads
  {
    if threshold > rounds * threads {
      var schedule := HangsOutOfReach(threads, rounds, threshold);
      var s := Init(threads, rounds, threshold, false);
      WakesAreNotForced(s, schedule, spurious);
      StuckIgnoresSpurious(Exec(Next, s, schedule), spurious);
      assert Stuck(Exec(Next, Init(threads, rounds, threshold, spurious), NoWakes(schedule)));
    } else if CanGetStuck(threads, rounds, threshold, spurious) {
      var schedule: seq<Action> :| Stuck(Exec(Next, Init(threads, rounds, threshold, spurious), schedule));
      NeverStuck(threads, rounds, threshold, spurious, schedule);
    }
  }

  // -------------------------------------------------------------- the program

  /** The counter with its mutex and condition variable, and the threads. */
  class Counter {
    const rounds: nat
    const threshold: int
    const spurious: bool
    var count: int
    var owner: Owner
    var incs: seq<Thread>
    var watch: WatchPc
    var watchReg: int

    ghost function View(): State
      reads this
    {
      State(rounds, threshold, spurious, count, owner, incs, watch, watchReg)
    }

    constructor (threads: nat, rounds: nat, threshold: int, spurious: bool)
      ensures View() == Init(threads, rounds, threshold, spurious)
    {
      this.rounds, this.threshold, this.spurious := rounds, threshold, spurious;
      count, owner, watch, watchReg := 0, Nobody, WLock, 0;
      incs := seq(threads, _ => Begin(0, rounds));
    }

    method IncCountStep(i: nat)
      requires i < |incs|
      modifies this
      ensures View() == IncStep(old(View()), i)
    {
      var th := incs[i];
      match th.pc {
        case Lock =>
          if owner == Nobody {
            owner, th := Inc(i), th.(pc := Load);
          }
        case Load => th := th.(pc := Store, reg := count);
        case Store =>
          count := th.reg + 1;
          th := th.(pc := Test);
        case Test => th := th.(pc := if count == threshold then Signal else Unlock);
        case Signal =>
          if watch == Waiting {
            watch := Ready;
          }
          th := th.(pc := Unlock);
        case Unlock => owner, th := Nobody, Begin(th.round + 1, rounds);
        case Done =>
      }
      incs := incs[i := th];
    }

    method WatchCountStep()
      modifies this
      ensures View() == WatchStep(old(View()))
    {
      match watch {
        case WLock =>
          if owner == Nobody {
            owner, watch := Watcher, WTest;
          }
        case WTest =>
          if count < threshold {
            owner, watch := Nobody, Waiting;
          } else {
            watch := WLoad;
          }
        case Ready =>
          if owner == Nobody {
            owner, watch := Watcher, WLoad;
          }
        case WLoad => watchReg, watch := count, WStore;
        case WStore => count, watch := watchReg + 100, WUnlock;
        case WUnlock => owner, watch := Nobody, WDone;
        case Waiting | WDone =>
      }
    }

    /** Plays a schedule from the start; a run that ends has counted right. */
    method Play(schedule: seq<Action>)
      requires View() == Init(|incs|, rounds, threshold, spurious)
      modifies this
      ensures View() == Exec(Next, old(View()), schedule)
      ensures Final(View()) ==> count == rounds * |incs| + 100
    {
      for n := 0 to |schedule|
        invariant View() == Exec(Next, old(View()), schedule[..n])
      {
        match schedule[n] {
          case Run(i) => if i < |incs| { IncCountStep(i); }
          case RunWatcher => WatchCountStep();
          case Wake => if spurious && watch == Waiting { watch := Ready; }
        }
        assert schedule[..n + 1][..n] == schedule[..n];
      }
      assert schedule[..|schedule|] == schedule;
      ProgramStays(old(View()), schedule);
      if watch == WDone && forall i :: 0 <= i < |incs| ==> incs[i].pc == Done {
        FinalCount(old(|incs|), rounds, threshold, spurious, schedule);
      }
    }
  }
}
