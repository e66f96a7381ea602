/** Two threads move money between two accounts inside Peterson's lock, with
    sequentially consistent memory and one load or store per step.
 */
module PetersonBank {
  import opened Runs
  import opened TwoThreads

  /** The next load or store of a thread.
      Choose to LoadTurn is the entry section, Compare to CheckPoor the critical
      section, LowerFlag its exit, Count the bookkeeping after it. */
  datatype Pc =
    | Choose | RaiseFlag | StoreTurn | LoadFlag | LoadTurn
    | Compare | Clamp | LoadRich | StoreRich | LoadPoor | StorePoor | CheckRich | CheckPoor
    | LowerFlag | Count | Ended

  /** `reg` holds the balance a compound assignment has loaded. */
  datatype Thread = Thread(pc: Pc, money: int, reg: int, done: bool, counted: bool)

  datatype State = State(
    amount: int, rich: int, poor: int, flag: Two<bool>, turn: Tid,
    thread: Two<Thread>, trans: Two<nat>, waits: Two<nat>)

  /** The scheduler lets a thread take a step; `rand` is what rand() returns,
      used only where the thread calls it. */
  datatype Action = Step(t: Tid, rand: nat)

  function Init(amount: int): State {
    var start := Thread(Choose, 0, 0, false, false);
    State(amount, amount, 0, Two(false, false), Zero, Two(start, start), Two(0, 0), Two(0, 0))
  }

  function Put(s: State, t: Tid, th: Thread): State {
    s.(thread := s.thread.With(t, th))
  }

  /** Inside the critical section, up to the exit store. */
  predicate InTransfer(pc: Pc) {
    || pc.Compare? || pc.Clamp? || pc.LoadRich? || pc.StoreRich? || pc.LoadPoor? || pc.StorePoor?
    || pc.CheckRich? || pc.CheckPoor?
  }

  predicate Transferring(s: State, t: Tid) {
    InTransfer(s.thread.At(t).pc)
  }

  function Transfer(s: State, t: Tid): State
    requires Transferring(s, t)
  {
    var th := s.thread.At(t);
    match th.pc
    case Compare => Put(s, t, th.(pc := if th.money > s.rich then Clamp else LoadRich))
    case Clamp => Put(s, t, th.(pc := LoadRich, money := s.rich))
    case LoadRich => Put(s, t, th.(pc := StoreRich, reg := s.rich))
    case StoreRich => Put(s, t, th.(pc := LoadPoor)).(rich := th.reg - th.money)
    case LoadPoor => Put(s, t, th.(pc := StorePoor, reg := s.poor))
    case StorePoor => Put(s, t, th.(pc := CheckRich)).(poor := th.reg + th.money)
    case CheckRich =>
      if s.rich <= 0 then Put(s, t, th.(pc := LowerFlag, done := true))
      else Put(s, t, th.(pc := CheckPoor))
    case CheckPoor => Put(s, t, th.(pc := LowerFlag, done := s.poor >= s.amount))
  }

  function EnterOrLeave(s: State, t: Tid, rand: nat): State
    requires !Transferring(s, t)
  {
    var th := s.thread.At(t);
    match th.pc
    case Choose => Put(s, t, th.(pc := RaiseFlag, money := 1 + rand % 10))
    case RaiseFlag =>
      Put(s, t, th.(pc := StoreTurn, counted := false)).(flag := s.flag.With(t, true))
    case StoreTurn => Put(s, t, th.(pc := LoadFlag)).(turn := t.Other())
    case LoadFlag => Put(s, t, th.(pc := if s.flag.At(t.Other()) then LoadTurn else Compare))
    case LoadTurn =>
      if s.turn != t.Other() then Put(s, t, th.(pc := Compare))
      else if th.counted then Put(s, t, th.(pc := LoadFlag))
      else Put(s, t, th.(pc := LoadFlag, counted := true)).(waits := s.waits.With(t, s.waits.At(t) + 1))
    case LowerFlag => Put(s, t, th.(pc := Count)).(flag := s.flag.With(t, false))
    case Count =>
      Put(s, t, th.(pc := if th.done then Ended else Choose)).(trans := s.trans.With(t, s.trans.At(t) + 1))
    case Ended => s
  }

  function Next(s: State, a: Action): State {
    if Transferring(s, a.t) then Transfer(s, a.t) else EnterOrLeave(s, a.t, a.rand)
  }

  // ---------------------------------------------------------------- invariant

  ghost predicate Spinning(pc: Pc) {
    pc.LoadFlag? || pc.LoadTurn?
  }

  ghost predicate Inside(pc: Pc) {
    InTransfer(pc) || pc.LowerFlag?
  }

  /** The thread has taken its money from the rich account. */
  ghost predicate Taken(pc: Pc) {
    pc.LoadPoor? || pc.StorePoor? || pc.CheckRich? || pc.CheckPoor? || pc.LowerFlag? || pc.Count?
  }

  /** Money that is in neither account. */
  ghost function InTransit(th: Thread): int {
    if th.pc == LoadPoor || th.pc == StorePoor then th.money else 0
  }

  ghost predicate LockOf(s: State, t: Tid) {
    var u := t.Other();
    var pc := s.thread.At(t).pc;
    && (s.flag.At(t) <==> pc == StoreTurn || Spinning(pc) || Inside(pc))
    && (Inside(pc) ==>
          && !Inside(s.thread.At(u).pc)
          && (Spinning(s.thread.At(u).pc) ==> s.turn == t))
  }

  /** What a thread knows about the accounts; stable because only a thread
      inside the critical section changes them. */
  ghost predicate Knows(th: Thread, rich: int, poor: int) {
    match th.pc
    case Choose => true
    case RaiseFlag => 1 <= th.money <= 10
    case StoreTurn => 1 <= th.money <= 10
    case LoadFlag => 1 <= th.money <= 10
    case LoadTurn => 1 <= th.money <= 10
    case Compare => 1 <= th.money <= 10
    case Clamp => rich < th.money <= 10
    case LoadRich => Fits(th.money, rich)
    case StoreRich => Fits(th.money, rich) && th.reg == rich
    case LoadPoor => rich >= 0
    case StorePoor => rich >= 0 && th.reg == poor
    case CheckRich => rich >= 0
    case CheckPoor => rich > 0
    case LowerFlag => rich >= 0 && (th.done <==> rich == 0)
    case Count => th.done ==> rich == 0
    case Ended => rich == 0
  }

  /** The amount to be moved is at most 10, covered, and 0 only if nothing is left. */
  ghost predicate Fits(money: int, rich: int) {
    money <= 10 && (money == rich || 1 <= money < rich)
  }

  ghost predicate MoneyOf(s: State, t: Tid) {
    Knows(s.thread.At(t), s.rich, s.poor)
  }

  ghost predicate Conserved(s: State) {
    && s.rich + s.poor + InTransit(s.thread.zero) + InTransit(s.thread.one) == s.amount
    && (if s.amount > 0 then 0 <= s.rich <= s.amount else s.rich == 0 || s.rich == s.amount)
  }

  ghost predicate Inv(s: State) {
    LockOf(s, Zero) && LockOf(s, One) && MoneyOf(s, Zero) && MoneyOf(s, One) && Conserved(s)
  }

  lemma NextKeepsOwnLock(s: State, a: Action)
    requires LockOf(s, a.t) && LockOf(s, a.t.Other())
    ensures LockOf(Next(s, a), a.t)
  {
  }

  lemma NextKeepsRivalLock(s: State, a: Action)
    requires LockOf(s, a.t) && LockOf(s, a.t.Other())
    ensures LockOf(Next(s, a), a.t.Other())
  {
  }

  lemma EntryKeepsOwnMoney(s: State, t: Tid, rand: nat)
    requires MoneyOf(s, t) && !Transferring(s, t)
    ensures MoneyOf(EnterOrLeave(s, t, rand), t)
  {
  }

  lemma TakingKeepsOwnMoney(s: State, t: Tid)
    requires MoneyOf(s, t) && Conserved(s) && Transferring(s, t) && !Taken(s.thread.At(t).pc)
    ensures MoneyOf(Transfer(s, t), t)
  {
  }

  lemma GivingKeepsOwnMoney(s: State, t: Tid)
    requires LockOf(s, t) && MoneyOf(s, t) && Conserved(s) && Transferring(s, t) && Taken(s.thread.At(t).pc)
    ensures MoneyOf(Transfer(s, t), t)
  {
  }

  lemma TransferKeepsOwnMoney(s: State, t: Tid)
    requires LockOf(s, t) && MoneyOf(s, t) && Conserved(s) && Transferring(s, t)
    ensures MoneyOf(Transfer(s, t), t)
  {
    if Taken(s.thread.At(t).pc) {
      GivingKeepsOwnMoney(s, t);
    } else {
      TakingKeepsOwnMoney(s, t);
    }
  }

  lemma EntryKeepsRivalMoney(s: State, t: Tid, rand: nat)
    requires MoneyOf(s, t.Other()) && !Transferring(s, t)
    ensures MoneyOf(EnterOrLeave(s, t, rand), t.Other())
  {
  }

  lemma TransferKeepsRivalMoney(s: State, t: Tid)
    requires LockOf(s, t) && MoneyOf(s, t) && MoneyOf(s, t.Other()) && Transferring(s, t)
    ensures MoneyOf(Transfer(s, t), t.Other())
  {
  }

  lemma EntryKeepsTotal(s: State, t: Tid, rand: nat)
    requires Conserved(s) && !Transferring(s, t)
    ensures Conserved(EnterOrLeave(s, t, rand))
  {
  }

  lemma TransferKeepsTotal(s: State, t: Tid)
    requires MoneyOf(s, t) && Conserved(s) && Transferring(s, t)
    ensures Conserved(Transfer(s, t))
  {
  }

  lemma NextKeepsInv(s: State, a: Action)
    requires Inv(s)
    ensures Inv(Next(s, a))
  {
    NextKeepsOwnLock(s, a);
    NextKeepsRivalLock(s, a);
    if Transferring(s, a.t) {
      TransferKeepsOwnMoney(s, a.t);
      TransferKeepsRivalMoney(s, a.t);
      TransferKeepsTotal(s, a.t);
    } else {
      EntryKeepsOwnMoney(s, a.t, a.rand);
      EntryKeepsRivalMoney(s, a.t, a.rand);
      EntryKeepsTotal(s, a.t, a.rand);
    }
  }

  // ------------------------------------------------------- counting transfers

  /** Transfers begun, whether or not the thread has counted them yet. */
  ghost function Transfers(s: State): nat {
    s.trans.zero + s.trans.one
    + (if Taken(s.thread.zero.pc) then 1 else 0) + (if Taken(s.thread.one.pc) then 1 else 0)
  }

  /** The thread is in or past the transfer after which it ends. */
  ghost predicate Last(s: State, t: Tid) {
    var th := s.thread.At(t);
    s.rich == 0 && (th.pc == Ended || (Taken(th.pc) && (Inside(th.pc) || th.done)))
  }

  ghost function Lasts(s: State): nat {
    (if Last(s, Zero) then 1 else 0) + (if Last(s, One) then 1 else 0)
  }

  /** Transfers that moved money: once the rich account is empty, all but one of
      the last transfers moved nothing. */
  ghost function Moves(s: State): int {
    if s.rich == 0 then Transfers(s) - (Lasts(s) - 1) else Transfers(s)
  }

  ghost predicate CountInv(s: State) {
    && (s.rich == 0 ==> Lasts(s) >= 1)
    && Moves(s) <= s.amount - s.rich <= 10 * Moves(s)
  }

  ghost predicate SameCount(s: State, s': State) {
    && s'.rich == s.rich && s'.amount == s.amount && Transfers(s') == Transfers(s)
    && (Last(s', Zero) <==> Last(s, Zero)) && (Last(s', One) <==> Last(s, One))
  }

  lemma EntryDoesNotCount(s: State, t: Tid, rand: nat)
    requires MoneyOf(s, t) && !Transferring(s, t)
    ensures SameCount(s, EnterOrLeave(s, t, rand))
  {
  }

  lemma OtherStoresDoNotCount(s: State, t: Tid)
    requires MoneyOf(s, t) && Conserved(s) && LockOf(s, t)
    requires Transferring(s, t) && s.thread.At(t).pc != StoreRich
    ensures SameCount(s, Transfer(s, t))
  {
  }

  lemma StoreRichCounts(s: State, a: Action)
    requires Inv(s) && s.amount >= 1 && CountInv(s) && s.thread.At(a.t).pc == StoreRich
    ensures CountInv(Next(s, a))
  {
    var t, u, s' := a.t, a.t.Other(), Next(s, a);
    assert Transfers(s') == Transfers(s) + 1;
    assert s.rich != 0 ==> !Last(s, u) && !Last(s', u);
    assert s.rich == 0 ==> (Last(s', u) <==> Last(s, u));
    assert !Last(s, t) && (Last(s', t) <==> s'.rich == 0);
  }

  lemma NextKeepsCount(s: State, a: Action)
    requires Inv(s) && s.amount >= 1 && CountInv(s)
    ensures CountInv(Next(s, a))
  {
    if !Transferring(s, a.t) {
      EntryDoesNotCount(s, a.t, a.rand);
    } else if s.thread.At(a.t).pc != StoreRich {
      OtherStoresDoNotCount(s, a.t);
    } else {
      StoreRichCounts(s, a);
    }
  }

  /** Busy waits are counted once a transaction. */
  ghost predicate WaitsOf(s: State, t: Tid) {
    var th := s.thread.At(t);
    s.waits.At(t) <= s.trans.At(t) + if th.counted && !th.pc.Choose? && !th.pc.RaiseFlag? && !th.pc.Ended? then 1 else 0
  }

  lemma NextKeepsWaits(s: State, a: Action)
    requires WaitsOf(s, Zero) && WaitsOf(s, One)
    ensures WaitsOf(Next(s, a), Zero) && WaitsOf(Next(s, a), One)
  {
  }

  ghost predicate Good(s: State) {
    Inv(s) && (s.amount >= 1 ==> CountInv(s)) && WaitsOf(s, Zero) && WaitsOf(s, One)
  }

  lemma NextKeepsGood()
    ensures forall s: State, a: Action {:trigger Next(s, a)} :: Good(s) ==> Good(Next(s, a))
  {
    forall s: State, a: Action | Good(s)
      ensures Good(Next(s, a))
    {
      NextKeepsInv(s, a);
      NextKeepsWaits(s, a);
      assert Next(s, a).amount == s.amount;
      if s.amount >= 1 {
        NextKeepsCount(s, a);
      }
    }
  }

  lemma Reachable(amount: int, schedule: seq<Action>)
    ensures Good(Exec(Next, Init(amount), schedule))
    ensures Exec(Next, Init(amount), schedule).amount == amount
  {
    NextKeepsGood();
    Invariance(Next, Good, Init(amount), schedule);
    AmountStays(Init(amount), schedule);
  }

  lemma {:induction false} AmountStays(s: State, schedule: seq<Action>)
    ensures Exec(Next, s, schedule).amount == s.amount
    decreases |schedule|
  {
    if schedule != [] {
      AmountStays(s, schedule[..|schedule| - 1]);
    }
  }

  // ------------------------------------------------------------ main theorems

  ghost predicate Final(s: State) {
    s.thread.zero.pc == Ended && s.thread.one.pc == Ended
  }

  /** In every run at most one thread is inside, and money is conserved
      whenever none is. */
  lemma ExclusiveAndConserved(amount: int, schedule: seq<Action>)
    ensures var s := Exec(Next, Init(amount), schedule);
      && !(Inside(s.thread.zero.pc) && Inside(s.thread.one.pc))
      && (!Inside(s.thread.zero.pc) && !Inside(s.thread.one.pc) ==> s.rich + s.poor == amount)
  {
    Reachable(amount, schedule);
  }

  /** When both threads have ended, the check of main passes for every initial
      amount; a positive amount takes one transfer more than those that move
      money, and each of these moves 1 to 10. No thread waits more often than
      it transfers. */
  lemma FinalBalances(amount: int, schedule: seq<Action>)
    requires Final(Exec(Next, Init(amount), schedule))
    ensures var s := Exec(Next, Init(amount), schedule);
      && s.rich == 0 && s.poor == amount
      && (amount >= 1 ==> (amount + 9) / 10 + 1 <= s.trans.zero + s.trans.one <= amount + 1)
      && s.waits.zero <= s.trans.zero && s.waits.one <= s.trans.one
  {
    Reachable(amount, schedule);
  }

  // -------------------------------------------------- what a run has drawn

  /** What rand() has returned to thread t for the transaction it is in. */
  ghost function Drawn(amount: int, schedule: seq<Action>, t: Tid): nat
    decreases |schedule|
  {
    if schedule == [] then 0
    else
      var n := |schedule| - 1;
      if schedule[n].t == t && Exec(Next, Init(amount), schedule[..n]).thread.At(t).pc == Choose then
        schedule[n].rand
      else Drawn(amount, schedule[..n], t)
  }

  ghost function Lesser(a: int, b: int): int {
    if a < b then a else b
  }

  /** The money of a thread is what it has drawn until it has been compared with
      the rich account, and then no more than is there. */
  ghost predicate Asks(th: Thread, rich: int, drawn: nat) {
    && (th.pc.RaiseFlag? || th.pc.StoreTurn? || Spinning(th.pc) || th.pc.Compare? || th.pc.Clamp? ==>
          th.money == 1 + drawn % 10)
    && (th.pc.LoadRich? || th.pc.StoreRich? ==> th.money == Lesser(1 + drawn % 10, rich))
  }

  lemma OwnStepAsks(s: State, a: Action, drawn: nat)
    requires Inv(s) && Asks(s.thread.At(a.t), s.rich, drawn)
    ensures var d := if s.thread.At(a.t).pc == Choose then a.rand else drawn;
      Asks(Next(s, a).thread.At(a.t), Next(s, a).rich, d)
  {
  }

  lemma RivalStepAsks(s: State, a: Action, drawn: nat)
    requires Inv(s) && Asks(s.thread.At(a.t.Other()), s.rich, drawn)
    ensures Asks(Next(s, a).thread.At(a.t.Other()), Next(s, a).rich, drawn)
  {
    assert Inside(s.thread.At(a.t).pc) ==> !Inside(s.thread.At(a.t.Other()).pc);
  }

  lemma {:induction false} RunAsks(amount: int, schedule: seq<Action>, t: Tid)
    ensures var s := Exec(Next, Init(amount), schedule);
      Asks(s.thread.At(t), s.rich, Drawn(amount, schedule, t))
    decreases |schedule|
  {
    if schedule != [] {
      var n := |schedule| - 1;
      var s, drawn := Exec(Next, Init(amount), schedule[..n]), Drawn(amount, schedule[..n], t);
      RunAsks(amount, schedule[..n], t);
      Reachable(amount, schedule[..n]);
      if schedule[n].t == t {
        OwnStepAsks(s, schedule[n], drawn);
      } else {
        RivalStepAsks(s, schedule[n], drawn);
      }
    }
  }

  /** The next step of thread t takes one more than the last digit of `drawn`
      from the rich account, or what is left if that is less. */
  ghost predicate TakesDrawn(s: State, t: Tid, drawn: nat) {
    forall rand: nat :: Next(s, Step(t, rand)).rich == s.rich - Lesser(1 + drawn % 10, s.rich)
  }

  lemma StoreTakes(s: State, t: Tid, drawn: nat)
    requires MoneyOf(s, t) && Asks(s.thread.At(t), s.rich, drawn) && s.thread.At(t).pc == StoreRich
    ensures TakesDrawn(s, t, drawn)
  {
  }

  /** In every run a transfer takes 1 + r % 10 for the r that rand() has returned
      for it, or what is left if that is less. */
  lemma TransferTakesWhatIsDrawn(amount: int, schedule: seq<Action>, t: Tid)
    requires Exec(Next, Init(amount), schedule).thread.At(t).pc == StoreRich
    ensures TakesDrawn(Exec(Next, Init(amount), schedule), t, Drawn(amount, schedule, t))
  {
    RunAsks(amount, schedule, t);
    Reachable(amount, schedule);
    StoreTakes(Exec(Next, Init(amount), schedule), t, Drawn(amount, schedule, t));
  }

  /** One turn of the busy wait of thread t. */
  ghost predicate BusyTurn(s: State, a: Action, t: Tid) {
    a.t == t && s.thread.At(t).pc == LoadTurn && s.turn == t.Other()
  }

  /** Whether the transaction that thread t is in has been through a busy wait. */
  ghost predicate HasWaited(amount: int, schedule: seq<Action>, t: Tid)
    decreases |schedule|
  {
    schedule != []
    && var n := |schedule| - 1;
       var s := Exec(Next, Init(amount), schedule[..n]);
       if schedule[n].t == t && s.thread.At(t).pc == Choose then false
       else BusyTurn(s, schedule[n], t) || HasWaited(amount, schedule[..n], t)
  }

  /** How many transactions of thread t have been through a busy wait. */
  ghost function Waited(amount: int, schedule: seq<Action>, t: Tid): nat
    decreases |schedule|
  {
    if schedule == [] then 0
    else
      var n := |schedule| - 1;
      var s := Exec(Next, Init(amount), schedule[..n]);
      Waited(amount, schedule[..n], t)
      + if BusyTurn(s, schedule[n], t) && !HasWaited(amount, schedule[..n], t) then 1 else 0
  }

  /** What `counted` says, from its reset on. */
  ghost predicate CountedIs(th: Thread, hasWaited: bool) {
    && (th.pc.RaiseFlag? ==> !hasWaited)
    && (th.pc.StoreTurn? || Spinning(th.pc) ==> (th.counted <==> hasWaited))
  }

  lemma StepCounts(s: State, a: Action, t: Tid, hasWaited: bool)
    requires CountedIs(s.thread.At(t), hasWaited)
    ensures var chooses := a.t == t && s.thread.At(t).pc == Choose;
      CountedIs(Next(s, a).thread.At(t), if chooses then false else BusyTurn(s, a, t) || hasWaited)
    ensures Next(s, a).waits.At(t) == s.waits.At(t) + if BusyTurn(s, a, t) && !hasWaited then 1 else 0
  {
  }

  /** In every run the wait counter of a thread is the number of its transactions
      that have been through a busy wait, each counted once. */
  lemma {:induction false} WaitsAreExact(amount: int, schedule: seq<Action>, t: Tid)
    ensures var s := Exec(Next, Init(amount), schedule);
      && s.waits.At(t) == Waited(amount, schedule, t)
      && CountedIs(s.thread.At(t), HasWaited(amount, schedule, t))
    decreases |schedule|
  {
    if schedule != [] {
      var n := |schedule| - 1;
      WaitsAreExact(amount, schedule[..n], t);
      StepCounts(Exec(Next, Init(amount), schedule[..n]), schedule[n], t, HasWaited(amount, schedule[..n], t));
    }
  }

  // ----------------------------------------------------------------- progress

  ghost function Abs(x: int): nat {
    if x < 0 then -x else x
  }

  /** Loads and stores left in this transaction. */
  ghost function Rank(pc: Pc): nat {
    match pc
    case Choose => 15
    case RaiseFlag => 14
    case StoreTurn => 13
    case LoadFlag => 12
    case LoadTurn => 12
    case Compare => 11
    case Clamp => 10
    case LoadRich => 9
    case StoreRich => 8
    case LoadPoor => 7
    case StorePoor => 6
    case CheckRich => 5
    case CheckPoor => 4
    case LowerFlag => 3
    case Count => 2
    case Ended => 0
  }

  ghost predicate WillLoop(th: Thread, rich: int) {
    Taken(th.pc) && if th.pc == LowerFlag || th.pc == Count then !th.done else rich > 0
  }

  ghost function RankOf(th: Thread, rich: int): nat {
    Rank(th.pc) + if WillLoop(th, rich) then 16 else 0
  }

  ghost function Measure(s: State): nat {
    16 * Abs(s.rich) + RankOf(s.thread.zero, s.rich) + RankOf(s.thread.one, s.rich)
  }

  /** The step is neither a turn of the busy wait nor a step of an ended thread. */
  predicate Works(s: State, a: Action) {
    match s.thread.At(a.t).pc
    case LoadFlag => !s.flag.At(a.t.Other())
    case LoadTurn => s.turn == a.t
    case Ended => false
    case _ => true
  }

  lemma EntryRankFalls(s: State, t: Tid, rand: nat)
    requires MoneyOf(s, t) && !Transferring(s, t)
    ensures var s' := EnterOrLeave(s, t, rand);
      RankOf(s'.thread.At(t), s'.rich) + (if Works(s, Step(t, rand)) then 1 else 0)
      <= RankOf(s.thread.At(t), s.rich)
  {
  }

  lemma TransferRankFalls(s: State, t: Tid)
    requires LockOf(s, t) && MoneyOf(s, t) && Conserved(s) && Transferring(s, t)
    ensures var s' := Transfer(s, t);
      16 * Abs(s'.rich) + RankOf(s'.thread.At(t), s'.rich) < 16 * Abs(s.rich) + RankOf(s.thread.At(t), s.rich)
  {
  }

  lemma RivalRankStays(s: State, a: Action)
    requires LockOf(s, a.t) && MoneyOf(s, a.t)
    ensures var s', u := Next(s, a), a.t.Other();
      RankOf(s'.thread.At(u), s'.rich) == RankOf(s.thread.At(u), s.rich)
  {
  }

  lemma MeasureFalls(s: State, a: Action)
    requires Inv(s)
    ensures Measure(Next(s, a)) + (if Works(s, a) then 1 else 0) <= Measure(s)
  {
    RivalRankStays(s, a);
    if Transferring(s, a.t) {
      TransferRankFalls(s, a.t);
    } else {
      EntryRankFalls(s, a.t, a.rand);
    }
  }

  /** On every schedule the threads take at most 16 * |amount| + 30 steps that
      are not busy waiting. */
  lemma WorkIsBounded(amount: int, schedule: seq<Action>)
    ensures Work(Next, Works, Init(amount), schedule) <= 16 * Abs(amount) + 30
  {
    forall s: State, a: Action | Inv(s)
      ensures Inv(Next(s, a))
      ensures Measure(Next(s, a)) + (if Works(s, a) then 1 else 0) <= Measure(s)
    {
      NextKeepsInv(s, a);
      MeasureFalls(s, a);
    }
    BoundedWork(Next, Inv, Works, Measure, Init(amount), schedule);
  }

  /** Whenever a thread has not ended, some thread works at once or after one
      turn of its busy wait, so nobody is locked out for good. */
  lemma SomebodyWorks(s: State) returns (t: Tid)
    requires Inv(s) && !Final(s)
    ensures forall rand: nat ::
      Works(s, Step(t, rand)) || Works(Next(s, Step(t, rand)), Step(t, rand))
  {
    var waits := (t: Tid) => Spinning(s.thread.At(t).pc);
    if s.thread.zero.pc != Ended && !waits(Zero) {
      t := Zero;
    } else if s.thread.one.pc != Ended && !waits(One) {
      t := One;
    } else if waits(Zero) && waits(One) {
      t := s.turn;
    } else {
      t := if waits(Zero) then Zero else One;
    }
  }

  lemma EveryRunCanEnd(amount: int, schedule: seq<Action>) returns (on: seq<Action>)
    ensures Final(Exec(Next, Exec(Next, Init(amount), schedule), on))
  {
    Reachable(amount, schedule);
    forall s: State, a: Action | Inv(s)
      ensures Inv(Next(s, a))
    {
      NextKeepsInv(s, a);
    }
    forall s: State | Inv(s) && !Final(s)
      ensures CanImprove(Next, Measure, s)
    {
      var t := SomebodyWorks(s);
      var a := Step(t, 0);
      MeasureFalls(s, a);
      NextKeepsInv(s, a);
      MeasureFalls(Next(s, a), a);
      ExecTwo(Next, s, a, a);
      assert Measure(Exec(Next, s, [a, a])) < Measure(s);
    }
    on := CanFinish(Next, Inv, Final, Measure, Exec(Next, Init(amount), schedule));
  }

  // ----------------------------------------------------------- bounded bypass

  /** The step takes thread u into the critical section. */
  ghost function EntersAs(u: Tid): (State, Action) -> bool {
    (s: State, a: Action) =>
      a.t == u && Spinning(s.thread.At(u).pc) && Inside(Next(s, a).thread.At(u).pc)
  }

  ghost function Waits(t: Tid): State -> bool {
    (s: State) => Spinning(s.thread.At(t).pc)
  }

  /** How often the rival of a spinning thread t can still overtake it. */
  ghost function Allowance(t: Tid): State -> nat {
    (s: State) => if Spinning(s.thread.At(t.Other()).pc) && s.turn == t.Other() then 1 else 0
  }

  lemma OvertakingUsesAllowance(s: State, t: Tid, a: Action)
    requires LockOf(s, Zero) && LockOf(s, One)
    requires Waits(t)(s) && Waits(t)(Next(s, a))
    ensures Allowance(t)(Next(s, a)) + (if EntersAs(t.Other())(s, a) then 1 else 0) <= Allowance(t)(s)
  {
    assert s.flag.At(t);
    if a.t == t {
      assert Allowance(t)(Next(s, a)) == Allowance(t)(s);
    }
  }

  /** Bounded bypass: from any reachable state on, while a thread that has given
      precedence away keeps waiting, its rival enters at most once. */
  lemma BypassedAtMostOnce(amount: int, prefix: seq<Action>, t: Tid, schedule: seq<Action>)
    requires Throughout(Next, Waits(t), Exec(Next, Init(amount), prefix), schedule)
    ensures Work(Next, EntersAs(t.Other()), Exec(Next, Init(amount), prefix), schedule) <= 1
  {
    Reachable(amount, prefix);
    forall s: State, a: Action | Inv(s)
      ensures Inv(Next(s, a))
      ensures Waits(t)(s) && Waits(t)(Next(s, a)) ==>
                Allowance(t)(Next(s, a)) + (if EntersAs(t.Other())(s, a) then 1 else 0) <= Allowance(t)(s)
    {
      NextKeepsInv(s, a);
      if Waits(t)(s) && Waits(t)(Next(s, a)) {
        OvertakingUsesAllowance(s, t, a);
      }
    }
    BoundedWorkWhile(Next, Inv, Waits(t), EntersAs(t.Other()), Allowance(t),
      Exec(Next, Init(amount), prefix), schedule);
  }

  // -------------------------------------------------------------- the program

  /** The global variables of the program and the locals of its two threads,
      changed in place one load or store at a time. */
  class Bank {
    const amount: int
    var richGuy: int
    var poorGuy: int
    var flag: Two<bool>
    var turn: Tid
    var transPerThread: Two<nat>
    var waitsPerThread: Two<nat>
    var thread: Two<Thread>

    ghost function View(): State
      reads this
    {
      State(amount, richGuy, poorGuy, flag, turn, thread, transPerThread, waitsPerThread)
    }

    constructor (amount: int)
      ensures View() == Init(amount) && this.amount == amount
    {
      this.amount, richGuy, poorGuy := amount, amount, 0;
      flag, turn := Two(false, false), Zero;
      transPerThread, waitsPerThread := Two(0, 0), Two(0, 0);
      thread := Two(Thread(Choose, 0, 0, false, false), Thread(Choose, 0, 0, false, false));
    }

    method TransferStep(t: Tid)
      requires Transferring(View(), t)
      modifies this
      ensures View() == Transfer(old(View()), t)
    {
      var th := thread.At(t);
      match th.pc {
        case Compare => th := th.(pc := if th.money > richGuy then Clamp else LoadRich);
        case Clamp => th := th.(pc := LoadRich, money := richGuy);
        case LoadRich => th := th.(pc := StoreRich, reg := richGuy);
        case StoreRich =>
          richGuy := th.reg - th.money;
          th := th.(pc := LoadPoor);
        case LoadPoor => th := th.(pc := StorePoor, reg := poorGuy);
        case StorePoor =>
          poorGuy := th.reg + th.money;
          th := th.(pc := CheckRich);
        case CheckRich =>
          if richGuy <= 0 {
            th := th.(pc := LowerFlag, done := true);
          } else {
            th := th.(pc := CheckPoor);
          }
        case CheckPoor => th := th.(pc := LowerFlag, done := poorGuy >= amount);
      }
      thread := thread.With(t, th);
    }

    method EnterOrLeaveStep(t: Tid, rand: nat)
      requires !Transferring(View(), t)
      modifies this
      ensures View() == EnterOrLeave(old(View()), t, rand)
    {
      var th := thread.At(t);
      match th.pc {
        case Choose => th := th.(pc := RaiseFlag, money := 1 + rand % 10);
        case RaiseFlag =>
          flag := flag.With(t, true);
          th := th.(pc := StoreTurn, counted := false);
        case StoreTurn =>
          turn := t.Other();
          th := th.(pc := LoadFlag);
        case LoadFlag => th := th.(pc := if flag.At(t.Other()) then LoadTurn else Compare);
        case LoadTurn =>
          if turn != t.Other() {
            th := th.(pc := Compare);
          } else {
            if !th.counted {
              waitsPerThread := waitsPerThread.With(t, waitsPerThread.At(t) + 1);
            }
            th := th.(pc := LoadFlag, counted := true);
          }
        case LowerFlag =>
          flag := flag.With(t, false);
          th := th.(pc := Count);
        case Count =>
          transPerThread := transPerThread.With(t, transPerThread.At(t) + 1);
          th := th.(pc := if th.done then Ended else Choose);
        case Ended =>
      }
      thread := thread.With(t, th);
    }

    /** Plays a schedule from the start and reports what the check at the end
        of main would: bad transactions are never detected once both threads
        have ended. */
    method Play(schedule: seq<Action>) returns (ended: bool, bad: bool)
      requires View() == Init(amount)
      modifies this
      ensures View() == Exec(Next, Init(amount), schedule)
      ensures ended <==> Final(View())
      ensures bad <==> richGuy != 0 || poorGuy != amount
      ensures ended ==> !bad
    {
      for i := 0 to |schedule|
        invariant View() == Exec(Next, Init(amount), schedule[..i])
      {
        var t := schedule[i].t;
        if InTransfer(thread.At(t).pc) {
          TransferStep(t);
        } else {
          EnterOrLeaveStep(t, schedule[i].rand);
        }
        assert schedule[..i + 1][..i] == schedule[..i];
      }
      assert schedule[..|schedule|] == schedule;
      ended := thread.zero.pc == Ended && thread.one.pc == Ended;
      bad := richGuy != 0 || poorGuy != amount;
      if ended {
        FinalBalances(amount, schedule);
      }
    }
  }
}
