/** Threads that deposit money in a loop, each deposit between cs_enter and
    cs_leave, for every method of critical section access control.

    A deposit loads the balance and stores the new one in a later step. A busy
    wait is a step that leaves the state alone; a thread that has to wait for a
    mutex, a semaphore or a message cannot step.
 */
module LockFamily {
  import opened Runs
  import opened Sums

  datatype Method =
    | Atomic | LockedVariable | Xchg | TestXchg | Mutex
    | SemPosix | SemPosixNamed | SemSysV | MqPosix | MqSysV

  /** Second is the second access of the two methods whose entry takes two. */
  datatype Pc = Enter | Second | Load | Store | Leave | Done

  datatype Thread = Thread(pc: Pc, round: nat, reg: int)

  datatype Owner = Nobody | By(t: nat)

  /** The variables of all methods; `queue` counts the messages in the queue. */
  datatype Lock = Lock(locked: bool, flag: bool, mutex: Owner, sem: nat, queue: nat)

  datatype State = State(
    how: Method, rounds: nat, start: int, gain: int, balance: int, lck: Lock, threads: seq<Thread>)

  const MQ_MAXMSG := 1

  function Begin(round: nat, rounds: nat): Thread {
    Thread(if round < rounds then Enter else Done, round, 0)
  }

  /** cs_init(); the gain of a deposit is its amount less the fee. */
  function Init(how: Method, threads: nat, rounds: nat, start: int, gain: int): State {
    State(how, rounds, start, gain, start, Lock(false, false, Nobody, 1, 1),
          seq(threads, _ => Begin(0, rounds)))
  }

  /** One step of cs_enter(): the lock and the next instruction. */
  function EnterStep(how: Method, x: Lock, t: nat, second: bool): (Lock, Pc) {
    match how
    case Atomic => (x, Load)
    case LockedVariable =>
      if second then (x.(locked := true), Load)
      else (x, if x.locked then Enter else Second)
    case TestXchg =>
      if second then (x.(locked := true), if x.locked then Enter else Load)
      else (x, if x.locked then Enter else Second)
    case Xchg => (x.(flag := true), if x.flag then Enter else Load)
    case Mutex => if x.mutex == Nobody then (x.(mutex := By(t)), Load) else (x, Enter)
    case SemPosix | SemPosixNamed | SemSysV => if x.sem > 0 then (x.(sem := x.sem - 1), Load) else (x, Enter)
    case MqPosix | MqSysV => if x.queue > 0 then (x.(queue := x.queue - 1), Load) else (x, Enter)
  }

  /** cs_leave(); false if the thread has to wait for room in the queue. */
  function LeaveStep(how: Method, x: Lock): (Lock, bool) {
    match how
    case Atomic => (x, true)
    case LockedVariable | TestXchg => (x.(locked := false), true)
    case Xchg => (x.(flag := false), true)
    case Mutex => (x.(mutex := Nobody), true)
    case SemPosix | SemPosixNamed | SemSysV => (x.(sem := x.sem + 1), true)
    case MqPosix => if x.queue < MQ_MAXMSG then (x.(queue := x.queue + 1), true) else (x, false)
    case MqSysV => (x.(queue := x.queue + 1), true)
  }

  function Step(s: State, t: nat): State
    requires t < |s.threads|
  {
    var th := s.threads[t];
    match th.pc
    case Enter | Second =>
      var (lck, pc) := EnterStep(s.how, s.lck, t, th.pc == Second);
      s.(lck := lck, threads := s.threads[t := th.(pc := pc)])
    case Load => s.(threads := s.threads[t := th.(pc := Store, reg := s.balance + s.gain)])
    case Store => s.(balance := th.reg, threads := s.threads[t := th.(pc := Leave)])
    case Leave =>
      var (lck, left) := LeaveStep(s.how, s.lck);
      if left then s.(lck := lck, threads := s.threads[t := Begin(th.round + 1, s.rounds)]) else s
    case Done => s
  }

  function Next(s: State, t: nat): State {
    if t < |s.threads| then Step(s, t) else s
  }

  // ---------------------------------------------------------------- invariant

  /** All methods but the empty one and the one with a plain variable. */
  predicate Sound(how: Method) {
    how != Atomic && how != LockedVariable
  }

  predicate Holding(th: Thread) {
    th.pc.Load? || th.pc.Store? || th.pc.Leave?
  }

  ghost function Holds(th: Thread): int {
    if Holding(th) then 1 else 0
  }

  ghost function Deposited(th: Thread): int {
    th.round + if th.pc.Leave? then 1 else 0
  }

  /** How many threads the lock would let in now. */
  ghost function Tokens(how: Method, x: Lock): int {
    match how
    case Atomic => 1
    case LockedVariable | TestXchg => if x.locked then 0 else 1
    case Xchg => if x.flag then 0 else 1
    case Mutex => if x.mutex == Nobody then 1 else 0
    case SemPosix | SemPosixNamed | SemSysV => x.sem
    case MqPosix | MqSysV => x.queue
  }

  ghost predicate ThreadInv(s: State, th: Thread) {
    && th.round <= s.rounds && (th.pc == Done <==> th.round == s.rounds)
    && (th.pc == Store ==> th.reg == s.balance + s.gain)
    && (th.pc == Second ==> s.how == TestXchg)
  }

  ghost predicate Inv(s: State) {
    && Sound(s.how)
    && Tokens(s.how, s.lck) + Sum(Holds, s.threads) == 1
    && (forall t :: 0 <= t < |s.threads| ==> ThreadInv(s, s.threads[t]))
    && s.balance == s.start + Sum(Deposited, s.threads) * s.gain
  }

  lemma HolderIsAlone(s: State, t: nat, u: nat)
    requires Inv(s) && t < |s.threads| && u < |s.threads| && t != u
    ensures !(Holding(s.threads[t]) && Holding(s.threads[u]))
    ensures Holding(s.threads[t]) ==> Tokens(s.how, s.lck) == 0
  {
    SumAtLeastTwo(Holds, s.threads, if t < u then t else u, if t < u then u else t);
  }

  lemma HolderHasToken(s: State, t: nat)
    requires Inv(s) && t < |s.threads| && Holding(s.threads[t])
    ensures Tokens(s.how, s.lck) == 0
  {
    SumAtLeastOne(Holds, s.threads, t);
  }

  lemma StepKeepsThreads(s: State, t: nat)
    requires Inv(s) && t < |s.threads|
    ensures forall u :: 0 <= u < |s.threads| ==> ThreadInv(Step(s, t), Step(s, t).threads[u])
  {
    forall u | 0 <= u < |s.threads|
      ensures ThreadInv(Step(s, t), Step(s, t).threads[u])
    {
      assert ThreadInv(s, s.threads[u]);
      if u != t {
        HolderIsAlone(s, t, u);
      }
    }
  }

  /** A token taken is a thread inside and a token given back one outside. */
  lemma StepKeepsTokens(s: State, t: nat)
    requires Inv(s) && t < |s.threads|
    ensures var s' := Step(s, t); Tokens(s'.how, s'.lck) + Sum(Holds, s'.threads) == 1
  {
    var s' := Step(s, t);
    assert ThreadInv(s, s.threads[t]);
    SumUpdate(Holds, s.threads, t, s'.threads[t]);
    assert s'.threads == s.threads[t := s'.threads[t]];
    if Holding(s.threads[t]) {
      HolderHasToken(s, t);
    }
  }

  lemma StepKeepsBalance(s: State, t: nat)
    requires Inv(s) && t < |s.threads|
    ensures var s' := Step(s, t); s'.balance == s'.start + Sum(Deposited, s'.threads) * s'.gain
  {
    var s' := Step(s, t);
    assert ThreadInv(s, s.threads[t]);
    SumUpdate(Deposited, s.threads, t, s'.threads[t]);
    assert s'.threads == s.threads[t := s'.threads[t]];
    if s.threads[t].pc == Store {
      assert Sum(Deposited, s'.threads) == Sum(Deposited, s.threads) + 1;
      assert (Sum(Deposited, s.threads) + 1) * s.gain == Sum(Deposited, s.threads) * s.gain + s.gain;
    } else {
      assert Sum(Deposited, s'.threads) == Sum(Deposited, s.threads);
    }
  }

  lemma NextKeepsInv(s: State, t: nat)
    requires Inv(s)
    ensures Inv(Next(s, t))
  {
    if t < |s.threads| {
      StepKeepsThreads(s, t);
      StepKeepsTokens(s, t);
      StepKeepsBalance(s, t);
    }
  }

  ghost predicate SameProgram(s: State, x: State) {
    s.how == x.how && s.rounds == x.rounds && s.start == x.start && s.gain == x.gain
    && |s.threads| == |x.threads|
  }

  lemma {:induction false} ProgramStays(s: State, schedule: seq<nat>)
    ensures SameProgram(Exec(Next, s, schedule), s)
    decreases |schedule|
  {
    if schedule != [] {
      ProgramStays(s, schedule[..|schedule| - 1]);
    }
  }

  lemma Reachable(how: Method, threads: nat, rounds: nat, start: int, gain: int, schedule: seq<nat>)
    requires Sound(how)
    ensures var s := Exec(Next, Init(how, threads, rounds, start, gain), schedule);
      Inv(s) && SameProgram(s, Init(how, threads, rounds, start, gain))
  {
    var s := Init(how, threads, rounds, start, gain);
    SumBounds(Holds, s.threads, 0, 0);
    SumBounds(Deposited, s.threads, 0, 0);
    forall x: State, t: nat | Inv(x)
      ensures Inv(Next(x, t))
    {
      NextKeepsInv(x, t);
    }
    Invariance(Next, Inv, s, schedule);
    ProgramStays(s, schedule);
  }

  // ----------------------------------------------------- one lock for them all

  /** The threads between cs_enter and cs_leave. */
  ghost function Inside(s: State): set<nat> {
    set t | 0 <= t < |s.threads| && Holding(s.threads[t])
  }

  /** A step of the abstract lock: t enters an empty section or leaves it. */
  ghost predicate LockStep(before: set<nat>, t: nat, after: set<nat>) {
    || after == before
    || (before == {} && after == {t})
    || (before == {t} && after == {})
  }

  lemma InsideIsAlone(s: State, t: nat)
    requires Inv(s) && t < |s.threads| && Holding(s.threads[t])
    ensures Inside(s) == {t}
  {
    forall u | u in Inside(s)
      ensures u == t
    {
      if u != t {
        HolderIsAlone(s, t, u);
      }
    }
    assert t in Inside(s);
  }

  /** Every method refines the same abstract lock, for any number of threads,
      and its variables always tell whether a thread is inside. */
  lemma RefinesOneLock(how: Method, threads: nat, rounds: nat, start: int, gain: int, schedule: seq<nat>, t: nat)
    requires Sound(how)
    ensures var s := Exec(Next, Init(how, threads, rounds, start, gain), schedule);
      && LockStep(Inside(s), t, Inside(Next(s, t)))
      && Tokens(how, s.lck) == (if Inside(s) == {} then 1 else 0)
  {
    var s := Exec(Next, Init(how, threads, rounds, start, gain), schedule);
    Reachable(how, threads, rounds, start, gain, schedule);
    StepIsLockStep(s, t);
    if Inside(s) == {} {
      forall u | 0 <= u < |s.threads|
        ensures Holds(s.threads[u]) == 0
      {
        assert u !in Inside(s);
      }
      SumBounds(Holds, s.threads, 0, 0);
    } else {
      var u :| u in Inside(s);
      HolderHasToken(s, u);
    }
  }

  lemma StepIsLockStep(s: State, t: nat)
    requires Inv(s)
    ensures LockStep(Inside(s), t, Inside(Next(s, t)))
  {
    var s' := Next(s, t);
    NextKeepsInv(s, t);
    if t < |s.threads| {
      if Holding(s.threads[t]) {
        InsideIsAlone(s, t);
      }
      if Holding(s'.threads[t]) {
        InsideIsAlone(s', t);
      }
      assert forall u :: 0 <= u < |s.threads| && u != t ==> s'.threads[u] == s.threads[u];
      assert Inside(s') - {t} == Inside(s) - {t};
      if !Holding(s.threads[t]) {
        assert Inside(s) == Inside(s) - {t};
      }
      if !Holding(s'.threads[t]) {
        assert Inside(s') == Inside(s') - {t};
      }
    }
  }

  ghost predicate Exclusive(s: State) {
    forall t, u :: 0 <= t < |s.threads| && 0 <= u < |s.threads| && t != u ==>
      !(Holding(s.threads[t]) && Holding(s.threads[u]))
  }

  ghost predicate AlwaysExclusive(how: Method, threads: nat, rounds: nat) {
    forall start: int, gain: int, schedule: seq<nat> ::
      Exclusive(Exec(Next, Init(how, threads, rounds, start, gain), schedule))
  }

  /** Two threads get in at once without a lock, and also with the plain
      variable, which both read before either sets it. */
  lemma TwoGetIn(how: Method, threads: nat, rounds: nat) returns (schedule: seq<nat>)
    requires !Sound(how) && threads >= 2 && rounds >= 1
    ensures !Exclusive(Exec(Next, Init(how, threads, rounds, 0, 0), schedule))
  {
    var s := Init(how, threads, rounds, 0, 0);
    var both := if how == Atomic then Load else Second;
    ExecTwo(Next, s, 0, 1);
    var s2 := Next(Next(s, 0), 1);
    assert s2.threads[0].pc == both && s2.threads[1].pc == both;
    schedule := [0, 1];
    if how == LockedVariable {
      ExecTwo(Next, s2, 0, 1);
      ExecConcat(Next, s, [0, 1], [0, 1]);
      schedule := [0, 1] + [0, 1];
      assert Holding(Exec(Next, s, schedule).threads[0]) && Holding(Exec(Next, s, schedule).threads[1]);
    }
  }

  /** The methods that exclude in every run are exactly the sound ones. */
  lemma ExclusiveIffSound(how: Method, threads: nat, rounds: nat)
    requires threads >= 2 && rounds >= 1
    ensures AlwaysExclusive(how, threads, rounds) <==> Sound(how)
  {
    if Sound(how) {
      forall start: int, gain: int, schedule: seq<nat>
        ensures Exclusive(Exec(Next, Init(how, threads, rounds, start, gain), schedule))
      {
        var s := Exec(Next, Init(how, threads, rounds, start, gain), schedule);
        Reachable(how, threads, rounds, start, gain, schedule);
        forall t, u | 0 <= t < |s.threads| && 0 <= u < |s.threads| && t != u
          ensures !(Holding(s.threads[t]) && Holding(s.threads[u]))
        {
          HolderIsAlone(s, t, u);
        }
      }
    } else {
      var schedule := TwoGetIn(how, threads, rounds);
    }
  }

  /** A thread never waits in cs_leave: even the queue with room for a single
      message is empty while a thread is inside. */
  lemma LeaveNeverBlocks(how: Method, threads: nat, rounds: nat, start: int, gain: int, schedule: seq<nat>, t: nat)
    requires Sound(how)
    ensures var s := Exec(Next, Init(how, threads, rounds, start, gain), schedule);
      t < |s.threads| && s.threads[t].pc == Leave ==>
        LeaveStep(how, s.lck).1 && Inside(Next(s, t)) == {}
  {
    var s := Exec(Next, Init(how, threads, rounds, start, gain), schedule);
    Reachable(how, threads, rounds, start, gain, schedule);
    if t < |s.threads| && s.threads[t].pc == Leave {
      HolderHasToken(s, t);
      InsideIsAlone(s, t);
      StepIsLockStep(s, t);
      assert t !in Inside(Next(s, t));
    }
  }

  // -------------------------------------------------------------- the balance

  ghost predicate Final(s: State) {
    forall t :: 0 <= t < |s.threads| ==> s.threads[t].pc == Done
  }

  /** No deposit is lost: every run of all threads ends with the exact balance. */
  lemma FinalBalance(how: Method, threads: nat, rounds: nat, start: int, gain: int, schedule: seq<nat>)
    requires Sound(how) && Final(Exec(Next, Init(how, threads, rounds, start, gain), schedule))
    ensures Exec(Next, Init(how, threads, rounds, start, gain), schedule).balance
         == start + rounds * threads * gain
  {
    var s := Exec(Next, Init(how, threads, rounds, start, gain), schedule);
    Reachable(how, threads, rounds, start, gain, schedule);
    assert forall t :: 0 <= t < |s.threads| ==> ThreadInv(s, s.threads[t]);
    SumBounds(Deposited, s.threads, rounds, rounds);
  }

  const TWO_TO_32 := 0x1_0000_0000

  /** The value main expects: the number of deposits is a product of two 32-bit
      unsigned numbers, the rest is computed in 64 bits. */
  function Expected(threads: nat, rounds: nat, start: int, gain: int): int {
    start + rounds * threads % TWO_TO_32 * gain
  }

  /** The check at the end of main accepts a complete run exactly when the
      number of deposits fits into 32 bits or deposits change nothing. */
  lemma CheckPassesIff(how: Method, threads: nat, rounds: nat, start: int, gain: int, schedule: seq<nat>)
    requires Sound(how) && Final(Exec(Next, Init(how, threads, rounds, start, gain), schedule))
    ensures Exec(Next, Init(how, threads, rounds, start, gain), schedule).balance
            == Expected(threads, rounds, start, gain)
        <==> rounds * threads < TWO_TO_32 || gain == 0
  {
    FinalBalance(how, threads, rounds, start, gain, schedule);
    var n := rounds * threads;
    assert n * gain - n % TWO_TO_32 * gain == (n - n % TWO_TO_32) * gain;
    assert n >= 0;
  }

  // ----------------------------------------------------------------- progress

  /** The step lets thread t in or is one of a thread inside. */
  predicate Works(s: State, t: nat) {
    t < |s.threads| && (Holding(s.threads[t]) || Holding(Next(s, t).threads[t]))
  }

  ghost function Rank(rounds: nat): Thread -> int {
    (th: Thread) => 4 * (rounds - th.round)
      - (if th.pc.Load? then 1 else if th.pc.Store? then 2 else if th.pc.Leave? then 3 else 0)
  }

  ghost function Measure(s: State): nat {
    var m := Sum(Rank(s.rounds), s.threads);
    if m < 0 then 0 else m
  }

  lemma RanksAreBounded(s: State)
    requires Inv(s)
    ensures 0 <= Sum(Rank(s.rounds), s.threads) <= 4 * s.rounds * |s.threads|
  {
    forall t | 0 <= t < |s.threads|
      ensures 0 <= Rank(s.rounds)(s.threads[t]) <= 4 * s.rounds
    {
      assert ThreadInv(s, s.threads[t]);
    }
    SumBounds(Rank(s.rounds), s.threads, 0, 4 * s.rounds);
  }

  lemma MeasureFalls(s: State, t: nat)
    requires Inv(s)
    ensures Measure(Next(s, t)) + (if Works(s, t) then 1 else 0) <= Measure(s)
  {
    var s' := Next(s, t);
    NextKeepsInv(s, t);
    RanksAreBounded(s);
    RanksAreBounded(s');
    if t < |s.threads| {
      if s.threads[t].pc == Leave {
        HolderHasToken(s, t);
      }
      SumUpdate(Rank(s.rounds), s.threads, t, s'.threads[t]);
      assert s'.threads == s.threads[t := s'.threads[t]];
    }
  }

  /** Whatever the scheduler does, the threads take at most four steps a
      deposit that are not busy waiting. */
  lemma WorkIsBounded(how: Method, threads: nat, rounds: nat, start: int, gain: int, schedule: seq<nat>)
    requires Sound(how)
    ensures Work(Next, Works, Init(how, threads, rounds, start, gain), schedule) <= 4 * rounds * threads
  {
    var s := Init(how, threads, rounds, start, gain);
    Reachable(how, threads, rounds, start, gain, []);
    RanksAreBounded(s);
    forall x: State, t: nat | Inv(x)
      ensures Inv(Next(x, t))
      ensures Measure(Next(x, t)) + (if Works(x, t) then 1 else 0) <= Measure(x)
    {
      NextKeepsInv(x, t);
      MeasureFalls(x, t);
    }
    BoundedWork(Next, Inv, Works, Measure, s, schedule);
  }

  lemma SomebodyWorks(s: State) returns (t: nat)
    requires Inv(s) && !Final(s)
    ensures Works(s, t) || Works(Next(s, t), t)
  {
    if u :| 0 <= u < |s.threads| && Holding(s.threads[u]) {
      t := u;
    } else {
      SumBounds(Holds, s.threads, 0, 0);
      t :| 0 <= t < |s.threads| && s.threads[t].pc != Done;
      assert ThreadInv(s, s.threads[t]);
      if s.how == TestXchg && s.threads[t].pc == Enter {
        assert Next(s, t).threads[t].pc == Second;
      }
    }
  }

  /** No deadlock: every run can be completed. */
  lemma EveryRunCanEnd(how: Method, threads: nat, rounds: nat, start: int, gain: int, schedule: seq<nat>)
    returns (on: seq<nat>)
    requires Sound(how)
    ensures Final(Exec(Next, Exec(Next, Init(how, threads, rounds, start, gain), schedule), on))
  {
    Reachable(how, threads, rounds, start, gain, schedule);
    forall x: State, t: nat | Inv(x)
      ensures Inv(Next(x, t))
    {
      NextKeepsInv(x, t);
    }
    forall x: State | Inv(x) && !Final(x)
      ensures CanImprove(Next, Measure, x)
    {
      var t := SomebodyWorks(x);
      NextKeepsInv(x, t);
      MeasureFalls(x, t);
      MeasureFalls(Next(x, t), t);
      ExecTwo(Next, x, t, t);
      assert Measure(Exec(Next, x, [t, t])) < Measure(x);
    }
    on := CanFinish(Next, Inv, Final, Measure, Exec(Next, Init(how, threads, rounds, start, gain), schedule));
  }

  // -------------------------------------------------------------- the program

  /** The account, the variables of the methods and the depositing threads. */
  class Account {
    const how: Method
    const rounds: nat
    const start: int
    const gain: int
    var accountBalance: int
    var locked: bool
    var lockedAtomic: bool
    var mutex: Owner
    var sem: nat
    var queue: nat
    var threads: seq<Thread>

    ghost function View(): State
      reads this
    {
      State(how, rounds, start, gain, accountBalance, Lock(locked, lockedAtomic, mutex, sem, queue), threads)
    }

    constructor (how: Method, count: nat, rounds: nat, start: int, gain: int)
      ensures View() == Init(how, count, rounds, start, gain)
    {
      this.how, this.rounds, this.start, this.gain := how, rounds, start, gain;
      accountBalance := start;
      locked, lockedAtomic, mutex, sem, queue := false, false, Nobody, 1, 1;
      threads := seq(count, _ => Begin(0, rounds));
    }

    method CsEnterStep(t: nat, second: bool) returns (pc: Pc)
      modifies `locked, `lockedAtomic, `mutex, `sem, `queue
      ensures View().threads == old(View()).threads && View().balance == old(View()).balance
      ensures (View().lck, pc) == EnterStep(how, old(View()).lck, t, second)
    {
      pc := Load;
      match how {
        case Atomic =>
        case LockedVariable =>
          if second {
            locked := true;
          } else {
            pc := if locked then Enter else Second;
          }
        case TestXchg =>
          if second {
            var was := locked;
            locked := true;
            pc := if was then Enter else Load;
          } else {
            pc := if locked then Enter else Second;
          }
        case Xchg =>
          pc := if lockedAtomic then Enter else Load;
          lockedAtomic := true;
        case Mutex =>
          if mutex == Nobody {
            mutex := By(t);
          } else {
            pc := Enter;
          }
        case SemPosix | SemPosixNamed | SemSysV =>
          if sem > 0 {
            sem := sem - 1;
          } else {
            pc := Enter;
          }
        case MqPosix | MqSysV =>
          if queue > 0 {
            queue := queue - 1;
          } else {
            pc := Enter;
          }
      }
    }

    method CsLeaveStep() returns (left: bool)
      modifies `locked, `lockedAtomic, `mutex, `sem, `queue
      ensures View().threads == old(View()).threads && View().balance == old(View()).balance
      ensures (View().lck, left) == LeaveStep(how, old(View()).lck)
    {
      left := true;
      match how {
        case Atomic =>
        case LockedVariable | TestXchg => locked := false;
        case Xchg => lockedAtomic := false;
        case Mutex => mutex := Nobody;
        case SemPosix | SemPosixNamed | SemSysV => sem := sem + 1;
        case MqPosix =>
          if queue < MQ_MAXMSG {
            queue := queue + 1;
          } else {
            left := false;
          }
        case MqSysV => queue := queue + 1;
      }
    }

    /** One step of bank_deposit() by thread t. */
    method DepositStep(t: nat)
      requires t < |threads|
      modifies this
      ensures View() == Step(old(View()), t)
    {
      var th := threads[t];
      match th.pc {
        case Enter | Second =>
          var pc := CsEnterStep(t, th.pc == Second);
          th := th.(pc := pc);
        case Load => th := th.(pc := Store, reg := accountBalance + gain);
        case Store =>
          accountBalance := th.reg;
          th := th.(pc := Leave);
        case Leave =>
          var left := CsLeaveStep();
          if left {
            th := Begin(th.round + 1, rounds);
          }
        case Done =>
      }
      threads := threads[t := th];
    }

    /** Plays a schedule from the start; a complete run has the exact balance. */
    method Play(schedule: seq<nat>)
      requires View() == Init(how, |threads|, rounds, start, gain)
      modifies this
      ensures View() == Exec(Next, old(View()), schedule)
      ensures Sound(how) && Final(View()) ==> accountBalance == start + rounds * |threads| * gain
    {
      for n := 0 to |schedule|
        invariant View() == Exec(Next, old(View()), schedule[..n])
      {
        if schedule[n] < |threads| {
          DepositStep(schedule[n]);
        }
        assert schedule[..n + 1][..n] == schedule[..n];
      }
      assert schedule[..|schedule|] == schedule;
      ProgramStays(old(View()), schedule);
      if Sound(how) && forall t :: 0 <= t < |threads| ==> threads[t].pc == Done {
        FinalBalance(how, old(|threads|), rounds, start, gain, schedule);
      }
    }
  }
}
