/** A one-slot cell in a monitor, with one producer and one consumer.

    Entering the monitor, waiting, pulsing and each access to the cell are steps
    of their own. Wait leaves the monitor and joins the wait set; Pulse makes the
    waiting thread ready, and a ready thread still has to enter the monitor again
    and to test the flag once more. The read access returns the cell's contents
    after it has left the monitor.
 */
module OneSlotCell {
  import opened Runs

  datatype Who = Producer | Consumer

  datatype Owner = Nobody | By(who: Who)

  datatype Pc =
    | Enter | Test | Waiting | Ready
    | Store | Print | Switch | Pulse | Exit
    | Return | Done

  /** `item` is the loop counter. */
  datatype Thread = Thread(pc: Pc, item: int)

  /** The history variables are the lines printed and the values returned. */
  datatype State = State(
    quantity: nat, contents: int, full: bool, owner: Owner, prod: Thread, cons: Thread,
    produced: seq<int>, consumed: seq<int>, returned: seq<int>)

  function Begin(item: int, quantity: nat): Thread {
    Thread(if item <= quantity then Enter else Done, item)
  }

  function Init(quantity: nat): State {
    State(quantity, 0, false, Nobody, Begin(1, quantity), Begin(1, quantity), [], [], [])
  }

  /** One step of WriteToCell(item), called in a loop. */
  function WriteStep(s: State): State {
    var p := s.prod;
    match p.pc
    case Enter => if s.owner == Nobody then s.(owner := By(Producer), prod := p.(pc := Test)) else s
    case Test =>
      if s.full then s.(owner := Nobody, prod := p.(pc := Waiting))
      else s.(prod := p.(pc := Store))
    case Waiting => s
    case Ready => if s.owner == Nobody then s.(owner := By(Producer), prod := p.(pc := Test)) else s
    case Store => s.(contents := p.item, prod := p.(pc := Print))
    case Print => s.(produced := s.produced + [s.contents], prod := p.(pc := Switch))
    case Switch => s.(full := true, prod := p.(pc := Pulse))
    case Pulse =>
      s.(prod := p.(pc := Exit),
         cons := if s.cons.pc == Waiting then s.cons.(pc := Ready) else s.cons)
    case Exit => s.(owner := Nobody, prod := Begin(p.item + 1, s.quantity))
    case Return => s
    case Done => s
  }

  /** One step of ReadFromCell(), called in a loop. */
  function ReadStep(s: State): State {
    var c := s.cons;
    match c.pc
    case Enter => if s.owner == Nobody then s.(owner := By(Consumer), cons := c.(pc := Test)) else s
    case Test =>
      if !s.full then s.(owner := Nobody, cons := c.(pc := Waiting))
      else s.(cons := c.(pc := Print))
    case Waiting => s
    case Ready => if s.owner == Nobody then s.(owner := By(Consumer), cons := c.(pc := Test)) else s
    case Store => s
    case Print => s.(consumed := s.consumed + [s.contents], cons := c.(pc := Switch))
    case Switch => s.(full := false, cons := c.(pc := Pulse))
    case Pulse =>
      s.(cons := c.(pc := Exit),
         prod := if s.prod.pc == Waiting then s.prod.(pc := Ready) else s.prod)
    case Exit => s.(owner := Nobody, cons := c.(pc := Return))
    case Return =>
      s.(returned := s.returned + [s.contents], cons := Begin(c.item + 1, s.quantity))
    case Done => s
  }

  function Next(s: State, w: Who): State {
    if w == Producer then WriteStep(s) else ReadStep(s)
  }

  // ---------------------------------------------------------------- invariant

  ghost predicate InMonitor(pc: Pc) {
    pc.Test? || pc.Store? || pc.Print? || pc.Switch? || pc.Pulse? || pc.Exit?
  }

  ghost predicate Counted(th: Thread, quantity: nat) {
    1 <= th.item <= quantity + 1 && (th.pc == Done <==> th.item == quantity + 1)
  }

  /** Items the producer has stored into the cell. */
  ghost function Stored(p: Thread): int {
    p.item - 1 + if p.pc.Print? || p.pc.Switch? || p.pc.Pulse? || p.pc.Exit? then 1 else 0
  }

  /** Items for which the producer has set the flag. */
  ghost function Offered(p: Thread): int {
    p.item - 1 + if p.pc.Pulse? || p.pc.Exit? then 1 else 0
  }

  /** Items for which the consumer has reset the flag. */
  ghost function Taken(c: Thread): int {
    c.item - 1 + if c.pc.Pulse? || c.pc.Exit? || c.pc.Return? then 1 else 0
  }

  ghost function UpTo(n: nat): seq<int> {
    seq(n, i => i + 1)
  }

  ghost predicate MonitorInv(s: State) {
    && (s.owner == By(Producer) <==> InMonitor(s.prod.pc))
    && (s.owner == By(Consumer) <==> InMonitor(s.cons.pc))
    && !s.prod.pc.Return? && !s.cons.pc.Store?
    && Counted(s.prod, s.quantity) && Counted(s.cons, s.quantity)
  }

  ghost predicate FlagInv(s: State) {
    && Offered(s.prod) == Taken(s.cons) + (if s.full then 1 else 0)
    && (s.prod.pc.Store? || s.prod.pc.Print? || s.prod.pc.Switch? || s.prod.pc.Ready? ==> !s.full)
    && (s.prod.pc.Pulse? || s.prod.pc.Exit? || s.cons.pc.Ready? ==> s.full)
    && (s.cons.pc.Print? || s.cons.pc.Switch? ==> s.full)
    && (s.cons.pc.Pulse? || s.cons.pc.Exit? ==> !s.full)
    // nobody waits for what has happened and been announced
    && (s.cons.pc.Waiting? ==> !s.full || s.prod.pc.Pulse?)
    && (s.prod.pc.Waiting? ==> s.full || s.cons.pc.Pulse?)
  }

  ghost predicate HistoryInv(s: State) {
    && s.contents == Stored(s.prod)
    && |s.produced| == Stored(s.prod) - (if s.prod.pc.Print? then 1 else 0)
    && |s.consumed| == Taken(s.cons) + (if s.cons.pc.Switch? then 1 else 0)
    && |s.returned| == s.cons.item - 1
    && (forall i :: 0 <= i < |s.produced| ==> s.produced[i] == i + 1)
    && (forall i :: 0 <= i < |s.consumed| ==> s.consumed[i] == i + 1)
    && (forall i :: 0 <= i < |s.returned| ==> i + 1 <= s.returned[i] <= i + 2 && s.returned[i] <= s.quantity)
  }

  ghost predicate Inv(s: State) {
    MonitorInv(s) && FlagInv(s) && HistoryInv(s)
  }

  lemma NextKeepsMonitor(s: State, w: Who)
    requires MonitorInv(s) && FlagInv(s)
    ensures MonitorInv(Next(s, w)) && FlagInv(Next(s, w))
  {
  }

  lemma WriteKeepsHistory(s: State)
    requires Inv(s)
    ensures HistoryInv(WriteStep(s))
  {
  }

  lemma ReadKeepsHistory(s: State)
    requires Inv(s)
    ensures HistoryInv(ReadStep(s))
  {
  }

  lemma NextKeepsInv(s: State, w: Who)
    requires Inv(s)
    ensures Inv(Next(s, w))
  {
    NextKeepsMonitor(s, w);
    if w == Producer {
      WriteKeepsHistory(s);
    } else {
      ReadKeepsHistory(s);
    }
  }

  lemma Reachable(quantity: nat, schedule: seq<Who>)
    ensures Inv(Exec(Next, Init(quantity), schedule))
    ensures Exec(Next, Init(quantity), schedule).quantity == quantity
  {
    forall s: State, w: Who | Inv(s)
      ensures Inv(Next(s, w))
    {
      NextKeepsInv(s, w);
    }
    Invariance(Next, Inv, Init(quantity), schedule);
    QuantityStays(Init(quantity), schedule);
  }

  lemma {:induction false} QuantityStays(s: State, schedule: seq<Who>)
    ensures Exec(Next, s, schedule).quantity == s.quantity
    decreases |schedule|
  {
    if schedule != [] {
      QuantityStays(s, schedule[..|schedule| - 1]);
    }
  }

  // ------------------------------------------------------------ main theorems

  ghost predicate Final(s: State) {
    s.prod.pc == Done && s.cons.pc == Done
  }

  /** No wakeup is lost in any run: a thread waits only for an event that is
      still to come or whose pulse is just being sent, and never do both wait. */
  lemma {:induction false} NoLostWakeup(quantity: nat, schedule: seq<Who>)
    ensures var s := Exec(Next, Init(quantity), schedule);
      && (s.cons.pc == Waiting ==> !s.full || s.prod.pc == Pulse)
      && (s.prod.pc == Waiting ==> s.full || s.cons.pc == Pulse)
      && !(s.cons.pc == Waiting && s.prod.pc == Waiting)
  {
    Reachable(quantity, schedule);
  }

  /** In every run the lines printed are 1, 2, 3 and so on; a run of both loops
      prints exactly 1 to quantity on each side. The k-th read returns k or
      k + 1, and the last one returns its own item. */
  lemma LinesAndResults(quantity: nat, schedule: seq<Who>)
    ensures var s := Exec(Next, Init(quantity), schedule);
      && s.consumed == UpTo(|s.consumed|) && s.produced == UpTo(|s.produced|)
      && |s.consumed| <= |s.produced| <= |s.consumed| + 2
      && (forall i :: 0 <= i < |s.returned| ==> s.returned[i] == i + 1 || s.returned[i] == i + 2)
      && (Final(s) ==> |s.consumed| == |s.produced| == |s.returned| == quantity)
      && (|s.returned| == quantity >= 1 ==> s.returned[quantity - 1] == quantity)
  {
    Reachable(quantity, schedule);
    HistoryTells(Exec(Next, Init(quantity), schedule));
  }

  lemma HistoryTells(s: State)
    requires Inv(s)
    ensures s.consumed == UpTo(|s.consumed|) && s.produced == UpTo(|s.produced|)
    ensures |s.consumed| <= |s.produced| <= |s.consumed| + 2
    ensures Final(s) ==> |s.consumed| == |s.produced| == |s.returned| == s.quantity
    ensures |s.returned| == s.quantity >= 1 ==> s.returned[s.quantity - 1] == s.quantity
  {
  }

  /** A read returns the line it printed exactly when the producer has not stored
      the next item since the monitor was left, and otherwise that next item. */
  lemma ReturnsItsLineIff(quantity: nat, schedule: seq<Who>)
    requires Exec(Next, Init(quantity), schedule).cons.pc == Return
    ensures var s := Exec(Next, Init(quantity), schedule);
      var line, returned := s.cons.item, Next(s, Consumer).returned;
      && s.consumed != [] && s.consumed[|s.consumed| - 1] == line
      && (s.contents == line <==> Stored(s.prod) == line)
      && |returned| == |s.returned| + 1
      && returned[|s.returned|] == (if Stored(s.prod) == line then line else line + 1)
  {
    Reachable(quantity, schedule);
  }

  /** Way points of a run with such a return, four steps apart. */
  ghost function RaceAt(quantity: nat, i: nat): State {
    if i == 0 then Init(quantity)
    else if i == 1 then State(quantity, 1, false, By(Producer), Thread(Switch, 1), Thread(Enter, 1), [1], [], [])
    else if i == 2 then State(quantity, 1, true, By(Consumer), Thread(Enter, 2), Thread(Test, 1), [1], [], [])
    else if i == 3 then State(quantity, 1, false, By(Consumer), Thread(Enter, 2), Thread(Exit, 1), [1], [1], [])
    else State(quantity, 2, false, By(Producer), Thread(Print, 2), Thread(Return, 1), [1], [1], [])
  }

  ghost function RaceSteps(i: nat): seq<Who> {
    if i == 0 then [Producer, Producer, Producer, Producer]
    else if i == 1 then [Producer, Producer, Producer, Consumer]
    else if i == 2 then [Consumer, Consumer, Consumer, Consumer]
    else [Consumer, Producer, Producer, Producer]
  }

  lemma RaceStep(quantity: nat, i: nat)
    requires quantity >= 2 && i < 4
    ensures Exec(Next, RaceAt(quantity, i), RaceSteps(i)) == RaceAt(quantity, i + 1)
  {
    var t := RaceSteps(i);
    ExecFour(Next, RaceAt(quantity, i), t[0], t[1], t[2], t[3]);
  }

  lemma {:induction false} RaceRun(quantity: nat, i: nat) returns (schedule: seq<Who>)
    requires quantity >= 2 && i <= 4
    ensures Exec(Next, Init(quantity), schedule) == RaceAt(quantity, i)
  {
    schedule := [];
    if i > 0 {
      var before := RaceRun(quantity, i - 1);
      RaceStep(quantity, i - 1);
      ExecConcat(Next, Init(quantity), before, RaceSteps(i - 1));
      schedule := before + RaceSteps(i - 1);
    }
  }

  /** The other case does happen: with two items to come the first read can
      print 1 and return 2. */
  lemma ReadCanReturnTheNextItem(quantity: nat) returns (schedule: seq<Who>)
    requires quantity >= 2
    ensures var s := Exec(Next, Init(quantity), schedule);
      s.consumed == [1] && s.returned == [2]
  {
    var before := RaceRun(quantity, 4);
    ExecOne(Next, RaceAt(quantity, 4), Consumer);
    ExecConcat(Next, Init(quantity), before, [Consumer]);
    schedule := before + [Consumer];
  }

  ghost predicate ReturnsItsLines(s: State) {
    |s.returned| <= |s.consumed| && forall i :: 0 <= i < |s.returned| ==> s.returned[i] == s.consumed[i]
  }

  ghost predicate AlwaysReturnsItsLines(quantity: nat) {
    forall schedule: seq<Who> :: ReturnsItsLines(Exec(Next, Init(quantity), schedule))
  }

  /** In every run every read returns the line it printed exactly if there is at
      most one item: only then can the producer not be a step ahead. */
  lemma AlwaysReturnsItsLinesIff(quantity: nat)
    ensures AlwaysReturnsItsLines(quantity) <==> quantity <= 1
  {
    if quantity <= 1 {
      forall schedule: seq<Who>
        ensures ReturnsItsLines(Exec(Next, Init(quantity), schedule))
      {
        Reachable(quantity, schedule);
      }
    } else {
      var schedule := ReadCanReturnTheNextItem(quantity);
      assert Exec(Next, Init(quantity), schedule).returned[0] == 2;
    }
  }

  // ----------------------------------------------------------------- progress

  /** Steps left for the current item; `waits` says whether a test of the flag
      would make the thread wait. */
  ghost function Rank(pc: Pc, waits: bool): nat {
    match pc
    case Enter => 11
    case Test => if waits then 10 else 7
    case Waiting => 9
    case Ready => 8
    case Store => 6
    case Print => 5
    case Switch => 4
    case Pulse => 3
    case Exit => 2
    case Return => 1
    case Done => 0
  }

  ghost function Measure(s: State): nat
  {
    Left(s.quantity, s.prod.item) + Rank(s.prod.pc, s.full)
    + Left(s.quantity, s.cons.item) + Rank(s.cons.pc, !s.full)
  }

  ghost function Left(quantity: nat, item: int): nat {
    if item <= quantity then 12 * (quantity + 1 - item) else 0
  }

  predicate CanStep(s: State, w: Who) {
    Next(s, w) != s
  }

  lemma MeasureFalls(s: State, w: Who)
    requires Inv(s)
    ensures Measure(Next(s, w)) + (if CanStep(s, w) then 1 else 0) <= Measure(s)
  {
  }

  lemma SomebodyCanStep(s: State)
    requires Inv(s) && !Final(s)
    ensures CanStep(s, Producer) || CanStep(s, Consumer)
  {
    var w := if InMonitor(s.prod.pc) then Producer
             else if InMonitor(s.cons.pc) then Consumer
             else if s.prod.pc == Waiting || s.prod.pc == Done then Consumer
             else Producer;
    assert (if w == Producer then Next(s, w).prod.pc != s.prod.pc else Next(s, w).cons != s.cons);
  }

  /** No run is ever stuck before both loops are done. */
  lemma NoDeadlock(quantity: nat, schedule: seq<Who>)
    ensures var s := Exec(Next, Init(quantity), schedule);
      Final(s) || CanStep(s, Producer) || CanStep(s, Consumer)
  {
    var s := Exec(Next, Init(quantity), schedule);
    Reachable(quantity, schedule);
    if !Final(s) {
      SomebodyCanStep(s);
    }
  }

  /** And none goes on for ever: no schedule has more than 24 * quantity + 22
      steps that change anything, so every run that keeps going completes. */
  lemma WorkIsBounded(quantity: nat, schedule: seq<Who>)
    ensures Work(Next, CanStep, Init(quantity), schedule) <= 24 * quantity + 22
  {
    forall s: State, w: Who | Inv(s)
      ensures Inv(Next(s, w))
      ensures Measure(Next(s, w)) + (if CanStep(s, w) then 1 else 0) <= Measure(s)
    {
      NextKeepsInv(s, w);
      MeasureFalls(s, w);
    }
    BoundedWork(Next, Inv, CanStep, Measure, Init(quantity), schedule);
  }

  // -------------------------------------------------------------- the program

  /** The cell with its monitor, and the loops of the two threads using it. */
  class Cell {
    const quantity: nat
    var cellContents: int
    var readerFlag: bool
    var owner: Owner
    var prod: Thread
    var cons: Thread
    var produced: seq<int>
    var consumed: seq<int>
    var returned: seq<int>

    ghost function View(): State
      reads this
    {
      State(quantity, cellContents, readerFlag, owner, prod, cons, produced, consumed, returned)
    }

    constructor (quantity: nat)
      ensures View() == Init(quantity) && this.quantity == quantity
    {
      this.quantity := quantity;
      cellContents, readerFlag, owner := 0, false, Nobody;
      prod, cons := Begin(1, quantity), Begin(1, quantity);
      produced, consumed, returned := [], [], [];
    }

    method WriteToCellStep()
      modifies this
      ensures View() == WriteStep(old(View()))
    {
      match prod.pc {
        case Enter | Ready =>
          if owner == Nobody {
            owner, prod := By(Producer), prod.(pc := Test);
          }
        case Test =>
          if readerFlag {
            owner, prod := Nobody, prod.(pc := Waiting);
          } else {
            prod := prod.(pc := Store);
          }
        case Store =>
          cellContents := prod.item;
          prod := prod.(pc := Print);
        case Print =>
          produced := produced + [cellContents];
          prod := prod.(pc := Switch);
        case Switch =>
          readerFlag := true;
          prod := prod.(pc := Pulse);
        case Pulse =>
          if cons.pc == Waiting {
            cons := cons.(pc := Ready);
          }
          prod := prod.(pc := Exit);
        case Exit =>
          owner, prod := Nobody, Begin(prod.item + 1, quantity);
        case Waiting | Return | Done =>
      }
    }

    method ReadFromCellStep()
      modifies this
      ensures View() == ReadStep(old(View()))
    {
      match cons.pc {
        case Enter | Ready =>
          if owner == Nobody {
            owner, cons := By(Consumer), cons.(pc := Test);
          }
        case Test =>
          if !readerFlag {
            owner, cons := Nobody, cons.(pc := Waiting);
          } else {
            cons := cons.(pc := Print);
          }
        case Print =>
          consumed := consumed + [cellContents];
          cons := cons.(pc := Switch);
        case Switch =>
          readerFlag := false;
          cons := cons.(pc := Pulse);
        case Pulse =>
          if prod.pc == Waiting {
            prod := prod.(pc := Ready);
          }
          cons := cons.(pc := Exit);
        case Exit =>
          owner, cons := Nobody, cons.(pc := Return);
        case Return =>
          returned := returned + [cellContents];
          cons := Begin(cons.item + 1, quantity);
        case Waiting | Store | Done =>
      }
    }

    /** Plays a schedule from the start. */
    method Play(schedule: seq<Who>)
      requires View() == Init(quantity)
      modifies this
      ensures View() == Exec(Next, Init(quantity), schedule)
      ensures consumed == UpTo(|consumed|)
      ensures prod.pc == Done && cons.pc == Done ==> consumed == produced == UpTo(quantity)
    {
      for i := 0 to |schedule|
        invariant View() == Exec(Next, Init(quantity), schedule[..i])
      {
        if schedule[i] == Producer {
          WriteToCellStep();
        } else {
          ReadFromCellStep();
        }
        assert schedule[..i + 1][..i] == schedule[..i];
      }
      assert schedule[..|schedule|] == schedule;
      LinesAndResults(quantity, schedule);
    }
  }
}
