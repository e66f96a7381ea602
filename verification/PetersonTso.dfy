/** Peterson's lock with xchg on a machine with store buffers.

    Every thread owns a FIFO store buffer. A plain store goes into the buffer and
    reaches memory at some later flush; a load sees the newest matching store of
    its own buffer and otherwise memory; a locked store (xchg) takes effect in
    memory at once but only when the thread's buffer is empty, so it drains it.
 */
module PetersonTso {
  import opened Runs
  import opened TwoThreads

  datatype Store = SetFlag(on: bool) | SetTurn(to: Tid) | SetData(addr: int, val: int)

  /** Which of the two stores of the entry code are locked. The xchg code locks
      both, its branch for compiler builtins only the one to `turn`, and the
      variant for one processor locks none. */
  datatype Entry = Entry(flagLocked: bool, turnLocked: bool)

  /** The next instruction of a thread. Idle is before `flag[self] = true`. */
  datatype Pc = Idle | StoreTurn | LoadFlag | LoadTurn | Critical

  type Memory = map<int, int>

  /** `logical` is a history variable: the data as if each store of a critical
      section had reached memory at once. */
  datatype State = State(
    entry: Entry, flag: Two<bool>, turn: Tid, data: Memory,
    buf: Two<seq<Store>>, pc: Two<Pc>, logical: Memory)

  datatype Action =
    | Run(t: Tid)                        // next instruction of the entry code
    | Write(t: Tid, addr: int, val: int) // a plain store inside the critical section
    | Post(t: Tid)                       // the plain store that leaves it
    | Flush(t: Tid)                      // memory takes the oldest buffered store

  function Init(entry: Entry, turn: Tid, data: Memory): State {
    State(entry, Two(false, false), turn, data, Two([], []), Two(Idle, Idle), data)
  }

  function Push(s: State, t: Tid, x: Store): State {
    s.(buf := s.buf.With(t, s.buf.At(t) + [x]))
  }

  function Goto(s: State, t: Tid, pc: Pc): State {
    s.(pc := s.pc.With(t, pc))
  }

  /** The value of `turn` that a thread with store buffer b reads. */
  function SeenTurn(b: seq<Store>, turn: Tid): Tid {
    if b == [] then turn
    else if b[|b| - 1].SetTurn? then b[|b| - 1].to
    else SeenTurn(b[..|b| - 1], turn)
  }

  /** The data word that a thread with store buffer b reads at addr. */
  function SeenData(b: seq<Store>, m: Memory, addr: int): int {
    if b == [] then Get(m, addr)
    else if b[|b| - 1].SetData? && b[|b| - 1].addr == addr then b[|b| - 1].val
    else SeenData(b[..|b| - 1], m, addr)
  }

  function Get(m: Memory, addr: int): int {
    if addr in m then m[addr] else 0
  }

  function Commit(x: Store, m: Memory): Memory {
    if x.SetData? then m[x.addr := x.val] else m
  }

  function StepEntry(s: State, t: Tid): State {
    var b := s.buf.At(t);
    match s.pc.At(t)
    case Idle =>
      if !s.entry.flagLocked then Goto(Push(s, t, SetFlag(true)), t, StoreTurn)
      else if b == [] then Goto(s.(flag := s.flag.With(t, true)), t, StoreTurn)
      else s
    case StoreTurn =>
      if !s.entry.turnLocked then Goto(Push(s, t, SetTurn(t.Other())), t, LoadFlag)
      else if b == [] then Goto(s.(turn := t.Other()), t, LoadFlag)
      else s
    case LoadFlag =>
      Goto(s, t, if s.flag.At(t.Other()) then LoadTurn else Critical)
    case LoadTurn =>
      Goto(s, t, if SeenTurn(b, s.turn) == t then Critical else LoadFlag)
    case Critical => s
  }

  function StepFlush(s: State, t: Tid): State {
    var b := s.buf.At(t);
    if b == [] then s
    else
      var rest := s.(buf := s.buf.With(t, b[1..]));
      match b[0]
      case SetFlag(on) => rest.(flag := s.flag.With(t, on))
      case SetTurn(to) => rest.(turn := to)
      case SetData(_, _) => rest.(data := Commit(b[0], s.data))
  }

  function Next(s: State, a: Action): State {
    match a
    case Run(t) => StepEntry(s, t)
    case Write(t, addr, val) =>
      if s.pc.At(t) != Critical then s
      else Push(s, t, SetData(addr, val)).(logical := s.logical[addr := val])
    case Post(t) =>
      if s.pc.At(t) != Critical then s
      else Goto(Push(s, t, SetFlag(false)), t, Idle)
    case Flush(t) => StepFlush(s, t)
  }

  // ---------------------------------------------------------------- invariant

  ghost predicate Spinning(pc: Pc) {
    pc == LoadFlag || pc == LoadTurn
  }

  ghost predicate DataOnly(b: seq<Store>) {
    forall i :: 0 <= i < |b| ==> b[i].SetData?
  }

  ghost predicate DataFree(b: seq<Store>) {
    forall i :: 0 <= i < |b| ==> !b[i].SetData?
  }

  /** After leaving: nothing pending and the flag down, or the stores of the
      critical section and then the store that lowers the flag. */
  ghost predicate LeftShape(b: seq<Store>, flag: bool) {
    if b == [] then !flag
    else flag && b[|b| - 1] == SetFlag(false) && DataOnly(b[..|b| - 1])
  }

  ghost predicate Shape(pc: Pc, b: seq<Store>, flag: bool) {
    match pc
    case Idle => LeftShape(b, flag)
    case StoreTurn =>
      if b == [] then flag
      else b[|b| - 1] == SetFlag(true) && LeftShape(b[..|b| - 1], flag)
    case LoadFlag => flag && b == []
    case LoadTurn => flag && b == []
    case Critical => flag && DataOnly(b)
  }

  /** The data once memory has taken all of b. */
  ghost function Drained(b: seq<Store>, m: Memory): Memory {
    if b == [] then m else Drained(b[1..], Commit(b[0], m))
  }

  ghost predicate InvOf(s: State, t: Tid) {
    var u := t.Other();
    && Shape(s.pc.At(t), s.buf.At(t), s.flag.At(t))
    && (s.pc.At(t) == Critical ==>
          && s.pc.At(u) != Critical
          && (Spinning(s.pc.At(u)) ==> s.turn == t)
          && DataFree(s.buf.At(u)))
    && (Spinning(s.pc.At(t)) && s.turn == t ==> DataFree(s.buf.At(u)))
    && (DataFree(s.buf.At(t)) || DataFree(s.buf.At(u)))
    && (DataFree(s.buf.At(u)) ==> Drained(s.buf.At(t), s.data) == s.logical)
  }

  ghost predicate Inv(s: State) {
    s.entry.turnLocked && InvOf(s, Zero) && InvOf(s, One)
  }

  lemma {:induction false} DrainedPush(b: seq<Store>, x: Store, m: Memory)
    ensures Drained(b + [x], m) == Commit(x, Drained(b, m))
    decreases |b|
  {
    if b == [] {
      assert Drained([x], m) == Drained([], Commit(x, m));
    } else {
      assert (b + [x])[1..] == b[1..] + [x];
      DrainedPush(b[1..], x, Commit(b[0], m));
    }
  }

  lemma {:induction false} DrainedDataFree(b: seq<Store>, m: Memory)
    requires DataFree(b)
    ensures Drained(b, m) == m
    decreases |b|
  {
    if b != [] {
      DrainedDataFree(b[1..], m);
    }
  }

  /** A load that searches the own buffer from its newest store sees what memory
      will hold once the buffer is drained. */
  lemma {:induction false} LoadSeesDrained(b: seq<Store>, m: Memory, addr: int)
    ensures SeenData(b, m, addr) == Get(Drained(b, m), addr)
    decreases |b|
  {
    if b != [] {
      var n := |b| - 1;
      LoadSeesDrained(b[..n], m, addr);
      DrainedPush(b[..n], b[n], m);
      assert b == b[..n] + [b[n]];
    }
  }

  /** `turn` once memory has taken all of b. */
  ghost function DrainedTurn(b: seq<Store>, turn: Tid): Tid {
    if b == [] then turn else DrainedTurn(b[1..], if b[0].SetTurn? then b[0].to else turn)
  }

  lemma {:induction false} DrainedTurnPush(b: seq<Store>, x: Store, turn: Tid)
    ensures DrainedTurn(b + [x], turn) == if x.SetTurn? then x.to else DrainedTurn(b, turn)
    decreases |b|
  {
    if b == [] {
      assert DrainedTurn([x], turn) == DrainedTurn([], if x.SetTurn? then x.to else turn);
    } else {
      assert (b + [x])[1..] == b[1..] + [x];
      DrainedTurnPush(b[1..], x, if b[0].SetTurn? then b[0].to else turn);
    }
  }

  /** And the same for a load of `turn`, where the store to it is a plain one. */
  lemma {:induction false} LoadOfTurnSeesDrained(b: seq<Store>, turn: Tid)
    ensures SeenTurn(b, turn) == DrainedTurn(b, turn)
    decreases |b|
  {
    if b != [] {
      var n := |b| - 1;
      LoadOfTurnSeesDrained(b[..n], turn);
      DrainedTurnPush(b[..n], b[n], turn);
      assert b == b[..n] + [b[n]];
    }
  }

  /** A flag that is down in memory has no data stores waiting behind it. */
  lemma LoweredFlagIsDrained(pc: Pc, b: seq<Store>)
    requires Shape(pc, b, false)
    ensures DataFree(b)
  {
  }

  lemma PushFacts(b: seq<Store>, x: Store, m: Memory)
    ensures var b' := b + [x];
      && Drained(b', m) == Commit(x, Drained(b, m))
      && b' != [] && b'[..|b'| - 1] == b && b'[|b'| - 1] == x
      && (DataFree(b') <==> DataFree(b) && !x.SetData?)
      && (DataOnly(b') <==> DataOnly(b) && x.SetData?)
  {
    var b' := b + [x];
    DrainedPush(b, x, m);
    assert b'[|b|] == x;
    assert forall i :: 0 <= i < |b| ==> b'[i] == b[i];
  }

  lemma RaiseFlagKeepsOwn(s: State, t: Tid)
    requires Inv(s) && s.pc.At(t) == Idle
    ensures InvOf(StepEntry(s, t), t)
  {
    PushFacts(s.buf.At(t), SetFlag(true), s.data);
  }

  lemma RaiseFlagKeepsRival(s: State, t: Tid)
    requires Inv(s) && s.pc.At(t) == Idle
    ensures InvOf(StepEntry(s, t), t.Other())
  {
    PushFacts(s.buf.At(t), SetFlag(true), s.data);
  }

  lemma EntryKeepsInv(s: State, t: Tid)
    requires Inv(s)
    ensures Inv(StepEntry(s, t))
  {
    if s.pc.At(t) == Idle {
      RaiseFlagKeepsOwn(s, t);
      RaiseFlagKeepsRival(s, t);
    } else if s.pc.At(t) == LoadFlag && !s.flag.At(t.Other()) {
      LoweredFlagIsDrained(s.pc.At(t.Other()), s.buf.At(t.Other()));
    }
  }

  lemma FlushKeepsShape(pc: Pc, b: seq<Store>, flag: bool)
    requires Shape(pc, b, flag) && b != []
    ensures !b[0].SetTurn?
    ensures Shape(pc, b[1..], if b[0].SetFlag? then b[0].on else flag)
    ensures DataFree(b) ==> DataFree(b[1..])
  {
    var n := |b| - 1;
    assert n > 0 ==> b[1..][..n - 1] == b[..n][1..];
    assert n > 0 ==> b[1..][n - 1] == b[n];
    if pc == StoreTurn && n > 0 {
      assert b[..n][n - 1] == b[n - 1];
      assert n > 1 ==> b[..n][1..][..n - 2] == b[..n][..n - 1][1..];
    }
  }

  lemma FlushKeepsRival(s: State, t: Tid)
    requires Inv(s) && s.buf.At(t) != []
    ensures InvOf(StepFlush(s, t), t.Other())
  {
    var b, u, s' := s.buf.At(t), t.Other(), StepFlush(s, t);
    FlushKeepsShape(s.pc.At(t), b, s.flag.At(t));
    assert Drained(b[1..], s'.data) == Drained(b, s.data);
    if DataFree(b[1..]) {
      DrainedDataFree(b[1..], s'.data);
      if b[0].SetData? {
        DrainedDataFree(s.buf.At(u), s'.data);
      }
    }
  }

  lemma FlushKeepsOwn(s: State, t: Tid)
    requires Inv(s) && s.buf.At(t) != []
    ensures InvOf(StepFlush(s, t), t)
  {
    var b, s' := s.buf.At(t), StepFlush(s, t);
    FlushKeepsShape(s.pc.At(t), b, s.flag.At(t));
    assert Drained(b[1..], s'.data) == Drained(b, s.data);
  }

  lemma FlushKeepsInv(s: State, t: Tid)
    requires Inv(s)
    ensures Inv(StepFlush(s, t))
  {
    if s.buf.At(t) != [] {
      FlushKeepsOwn(s, t);
      FlushKeepsRival(s, t);
      FlushKeepsShape(s.pc.At(t), s.buf.At(t), s.flag.At(t));
    }
  }

  lemma WriteKeepsOwn(s: State, t: Tid, addr: int, val: int)
    requires Inv(s) && s.pc.At(t) == Critical
    ensures InvOf(Next(s, Write(t, addr, val)), t)
  {
    PushFacts(s.buf.At(t), SetData(addr, val), s.data);
  }

  lemma WriteKeepsRival(s: State, t: Tid, addr: int, val: int)
    requires Inv(s) && s.pc.At(t) == Critical
    ensures InvOf(Next(s, Write(t, addr, val)), t.Other())
  {
    PushFacts(s.buf.At(t), SetData(addr, val), s.data);
  }

  lemma PostKeepsOwn(s: State, t: Tid)
    requires Inv(s) && s.pc.At(t) == Critical
    ensures InvOf(Next(s, Post(t)), t)
  {
    PushFacts(s.buf.At(t), SetFlag(false), s.data);
  }

  lemma PostKeepsRival(s: State, t: Tid)
    requires Inv(s) && s.pc.At(t) == Critical
    ensures InvOf(Next(s, Post(t)), t.Other())
  {
    PushFacts(s.buf.At(t), SetFlag(false), s.data);
  }

  lemma NextKeepsInv(s: State, a: Action)
    requires Inv(s)
    ensures Inv(Next(s, a))
  {
    match a {
      case Run(t) =>
        EntryKeepsInv(s, t);
      case Write(t, addr, val) =>
        if s.pc.At(t) == Critical {
          WriteKeepsOwn(s, t, addr, val);
          WriteKeepsRival(s, t, addr, val);
        }
      case Post(t) =>
        if s.pc.At(t) == Critical {
          PostKeepsOwn(s, t);
          PostKeepsRival(s, t);
        }
      case Flush(t) =>
        FlushKeepsInv(s, t);
    }
  }

  lemma ReachableInv(entry: Entry, turn: Tid, data: Memory, schedule: seq<Action>)
    requires entry.turnLocked
    ensures Inv(Exec(Next, Init(entry, turn, data), schedule))
  {
    forall s: State, a: Action | Inv(s)
      ensures Inv(Next(s, a))
    {
      NextKeepsInv(s, a);
    }
    Invariance(Next, Inv, Init(entry, turn, data), schedule);
  }

  // ------------------------------------------------------------ main theorems

  ghost predicate Exclusive(s: State) {
    !(s.pc.zero == Critical && s.pc.one == Critical)
  }

  ghost predicate AlwaysExclusive(entry: Entry) {
    forall turn: Tid, data: Memory, schedule: seq<Action> ::
      Exclusive(Exec(Next, Init(entry, turn, data), schedule))
  }

  /** The stores of the entry code of thread zero that are still buffered when
      it reads the flag of thread one. */
  ghost function Announced(entry: Entry): seq<Store> {
    (if entry.flagLocked then [] else [SetFlag(true)]) + [SetTurn(One)]
  }

  ghost function ZeroIn(entry: Entry, onesFlag: bool, onesPc: Pc): State {
    State(entry, Two(entry.flagLocked, onesFlag), Zero, map[], Two(Announced(entry), []),
          Two(Critical, onesPc), map[])
  }

  lemma ZeroEnters(entry: Entry)
    requires !entry.turnLocked
    ensures Exec(Next, Init(entry, Zero, map[]), [Run(Zero), Run(Zero), Run(Zero), Flush(One)])
         == ZeroIn(entry, false, Idle)
  {
    ExecFour(Next, Init(entry, Zero, map[]), Run(Zero), Run(Zero), Run(Zero), Flush(One));
    var s1 := Next(Init(entry, Zero, map[]), Run(Zero));
    var s2 := Next(s1, Run(Zero));
    assert s2.buf.zero == Announced(entry);
    assert Next(s2, Run(Zero)) == ZeroIn(entry, false, Idle);
  }

  lemma OneAnnounces(entry: Entry)
    requires !entry.turnLocked
    ensures Exec(Next, ZeroIn(entry, false, Idle), [Run(One), Run(One), Flush(One), Flush(One)])
         == ZeroIn(entry, true, LoadFlag)
  {
    ExecFour(Next, ZeroIn(entry, false, Idle), Run(One), Run(One), Flush(One), Flush(One));
    var s2 := Next(Next(ZeroIn(entry, false, Idle), Run(One)), Run(One));
    if entry.flagLocked {
      assert s2.buf.one == [SetTurn(Zero)];
    } else {
      assert s2.buf.one == [SetFlag(true), SetTurn(Zero)];
    }
    assert Next(Next(s2, Flush(One)), Flush(One)).buf.one == [];
  }

  lemma OneEnters(entry: Entry)
    requires !entry.turnLocked
    ensures Exec(Next, ZeroIn(entry, true, LoadFlag), [Flush(Zero), Flush(Zero), Run(One), Run(One)]).pc
         == Two(Critical, Critical)
  {
    ExecFour(Next, ZeroIn(entry, true, LoadFlag), Flush(Zero), Flush(Zero), Run(One), Run(One));
    var s := Next(ZeroIn(entry, true, LoadFlag), Flush(Zero));
    assert Next(s, Flush(Zero)).turn == One;
  }

  lemma {:induction false} InThreeParts(s: State, x: seq<Action>, y: seq<Action>, z: seq<Action>)
    ensures Exec(Next, s, x + y + z) == Exec(Next, Exec(Next, Exec(Next, s, x), y), z)
  {
    ExecConcat(Next, s, x, y);
    ExecConcat(Next, s, x + y, z);
  }

  /** With a plain store to `turn` both threads get in: zero enters while its
      store to `turn` is buffered, and that store then lets one in. */
  lemma BothEnter(entry: Entry) returns (schedule: seq<Action>)
    requires !entry.turnLocked
    ensures Exec(Next, Init(entry, Zero, map[]), schedule).pc == Two(Critical, Critical)
  {
    ZeroEnters(entry);
    OneAnnounces(entry);
    OneEnters(entry);
    var x := [Run(Zero), Run(Zero), Run(Zero), Flush(One)];
    var y := [Run(One), Run(One), Flush(One), Flush(One)];
    var z := [Flush(Zero), Flush(Zero), Run(One), Run(One)];
    InThreeParts(Init(entry, Zero, map[]), x, y, z);
    return x + y + z;
  }

  /** What xchg is for: on store buffers the lock excludes in every run exactly
      when the store to `turn` is a locked one. */
  lemma ExclusiveIffTurnLocked(entry: Entry)
    ensures AlwaysExclusive(entry) <==> entry.turnLocked
  {
    if entry.turnLocked {
      forall turn: Tid, data: Memory, schedule: seq<Action>
        ensures Exclusive(Exec(Next, Init(entry, turn, data), schedule))
      {
        ReachableInv(entry, turn, data, schedule);
      }
    } else {
      var schedule := BothEnter(entry);
      assert !Exclusive(Exec(Next, Init(entry, Zero, map[]), schedule));
    }
  }

  /** A thread inside the critical section reads at every address the last value
      stored in any critical section, although the thread that stored it has
      left with a plain store only. */
  lemma CriticalLoadsAreCurrent(entry: Entry, turn: Tid, data: Memory, schedule: seq<Action>, t: Tid, addr: int)
    requires entry.turnLocked
    ensures var s := Exec(Next, Init(entry, turn, data), schedule);
      s.pc.At(t) == Critical ==> SeenData(s.buf.At(t), s.data, addr) == Get(s.logical, addr)
  {
    var s := Exec(Next, Init(entry, turn, data), schedule);
    ReachableInv(entry, turn, data, schedule);
    LoadSeesDrained(s.buf.At(t), s.data, addr);
  }

  /** The specification: one atomic lock around a memory without buffers. */
  datatype Locked = Free(data: Memory) | Held(holder: Tid, data: Memory)

  ghost function Abs(s: State): Locked {
    if s.pc.zero == Critical then Held(Zero, s.logical)
    else if s.pc.one == Critical then Held(One, s.logical)
    else Free(s.logical)
  }

  ghost predicate LockedStep(x: Locked, a: Action, y: Locked) {
    match a
    case Run(t) => y == x || (x.Free? && y == Held(t, x.data))
    case Write(t, addr, val) =>
      y == if x.Held? && x.holder == t then Held(t, x.data[addr := val]) else x
    case Post(t) => y == if x.Held? && x.holder == t then Free(x.data) else x
    case Flush(_) => y == x
  }

  lemma StepIsAtomicLockStep(s: State, a: Action)
    requires Exclusive(s) && Exclusive(Next(s, a))
    ensures LockedStep(Abs(s), a, Abs(Next(s, a)))
  {
  }

  /** Every step of every run of the store-buffer machine is a step of the
      atomic lock, flushes being invisible, and whoever holds the lock loads at
      every address what the lock's memory has there. */
  lemma RefinesAtomicLock(entry: Entry, turn: Tid, data: Memory, schedule: seq<Action>, a: Action)
    requires entry.turnLocked
    ensures var s := Exec(Next, Init(entry, turn, data), schedule);
      && LockedStep(Abs(s), a, Abs(Next(s, a)))
      && (Abs(s).Held? ==> var t := Abs(s).holder;
            forall addr: int :: SeenData(s.buf.At(t), s.data, addr) == Get(Abs(s).data, addr))
  {
    var s := Exec(Next, Init(entry, turn, data), schedule);
    ReachableInv(entry, turn, data, schedule);
    NextKeepsInv(s, a);
    StepIsAtomicLockStep(s, a);
    if Abs(s).Held? {
      forall addr: int
        ensures SeenData(s.buf.At(Abs(s).holder), s.data, addr) == Get(Abs(s).data, addr)
      {
        CriticalLoadsAreCurrent(entry, turn, data, schedule, Abs(s).holder, addr);
      }
    }
  }

  /** No store is lost: memory with empty buffers holds the logical data. */
  lemma DrainedMemoryIsLogical(entry: Entry, turn: Tid, data: Memory, schedule: seq<Action>)
    requires entry.turnLocked
    ensures var s := Exec(Next, Init(entry, turn, data), schedule);
      s.buf == Two([], []) ==> s.data == s.logical
  {
    ReachableInv(entry, turn, data, schedule);
  }

  // ----------------------------------------------------------------- progress

  ghost predicate SomebodyIn(s: State) {
    s.pc.zero == Critical || s.pc.one == Critical
  }

  /** Entry code of both threads and flushes. */
  ghost predicate EntryOnly(on: seq<Action>) {
    forall i :: 0 <= i < |on| ==> on[i].Run? || on[i].Flush?
  }

  lemma {:induction false} ExecKeepsInv(s: State, on: seq<Action>)
    requires Inv(s)
    ensures Inv(Exec(Next, s, on))
  {
    forall x: State, a: Action | Inv(x)
      ensures Inv(Next(x, a))
    {
      NextKeepsInv(x, a);
    }
    Invariance(Next, Inv, s, on);
  }

  /** No entry code takes a thread out of the critical section or back from waiting. */
  lemma EntryStepLeavesWaiting(s: State, t: Tid, a: Action)
    requires (a.Run? || a.Flush?) && (Spinning(s.pc.At(t)) || s.pc.At(t) == Critical)
    ensures Spinning(Next(s, a).pc.At(t)) || Next(s, a).pc.At(t) == Critical
  {
  }

  lemma {:induction false} EntryLeavesWaiting(s: State, t: Tid, on: seq<Action>)
    requires EntryOnly(on) && (Spinning(s.pc.At(t)) || s.pc.At(t) == Critical)
    ensures var s' := Exec(Next, s, on); Spinning(s'.pc.At(t)) || s'.pc.At(t) == Critical
    decreases |on|
  {
    if on != [] {
      var n := |on| - 1;
      EntryLeavesWaiting(s, t, on[..n]);
      EntryStepLeavesWaiting(Exec(Next, s, on[..n]), t, on[n]);
    }
  }

  lemma FlushShortens(s: State, u: Tid)
    requires s.buf.At(u) != []
    ensures Next(s, Flush(u)).pc == s.pc
    ensures |Next(s, Flush(u)).buf.At(u)| == |s.buf.At(u)| - 1
  {
  }

  /** Memory can take everything a thread has buffered; the instruction pointers
      stay where they are. */
  lemma {:induction false} DrainBuffer(s: State, u: Tid) returns (on: seq<Action>)
    requires Inv(s)
    ensures EntryOnly(on)
    ensures var s' := Exec(Next, s, on);
      Inv(s') && s'.pc == s.pc && s'.buf.At(u) == []
  {
    on := [];
    while Exec(Next, s, on).buf.At(u) != []
      invariant EntryOnly(on) && Exec(Next, s, on).pc == s.pc
      decreases |Exec(Next, s, on).buf.At(u)|
    {
      FlushShortens(Exec(Next, s, on), u);
      ExecOneMore(Next, s, on, Flush(u));
      on := on + [Flush(u)];
    }
    ExecKeepsInv(s, on);
  }

  /** A thread that spins although its rival has nothing buffered and is not
      about to store to `turn` gets in, or the rival does, by at most two loads
      of one of them. */
  lemma SpinEnds(s: State, t: Tid) returns (on: seq<Action>)
    requires Inv(s) && Spinning(s.pc.At(t))
    requires s.pc.At(t.Other()) == Idle ==> s.buf.At(t.Other()) == []
    requires s.pc.At(t.Other()) != StoreTurn
    ensures EntryOnly(on) && SomebodyIn(Exec(Next, s, on))
  {
    var u := t.Other();
    var v := if Spinning(s.pc.At(u)) && s.turn == u then u else t;
    ExecOne(Next, s, Run(v));
    ExecTwo(Next, s, Run(v), Run(v));
    on := if SomebodyIn(s) then [] else if SomebodyIn(Next(s, Run(v))) then [Run(v)] else [Run(v), Run(v)];
  }

  lemma WaitingEnds(s: State, t: Tid) returns (on: seq<Action>)
    requires Inv(s) && Spinning(s.pc.At(t))
    ensures EntryOnly(on) && SomebodyIn(Exec(Next, s, on))
  {
    var u := t.Other();
    var flushes := DrainBuffer(s, u);
    var drained := Exec(Next, s, flushes);
    if drained.pc.At(u) == StoreTurn {
      NextKeepsInv(drained, Run(u));
      ExecOne(Next, drained, Run(u));
      var rest := SpinEnds(Next(drained, Run(u)), t);
      ExecConcat(Next, s, flushes, [Run(u)]);
      ExecConcat(Next, s, flushes + [Run(u)], rest);
      on := flushes + [Run(u)] + rest;
    } else {
      var rest := SpinEnds(drained, t);
      ExecConcat(Next, s, flushes, rest);
      on := flushes + rest;
    }
  }

  /** No deadlock: in every reachable state in which a thread waits, some
      continuation made of entry code and flushes alone lets a thread in. */
  lemma SomebodyGetsIn(entry: Entry, turn: Tid, data: Memory, schedule: seq<Action>, t: Tid)
    returns (on: seq<Action>)
    requires entry.turnLocked
    requires Spinning(Exec(Next, Init(entry, turn, data), schedule).pc.At(t))
    ensures EntryOnly(on)
    ensures SomebodyIn(Exec(Next, Exec(Next, Init(entry, turn, data), schedule), on))
  {
    ReachableInv(entry, turn, data, schedule);
    on := WaitingEnds(Exec(Next, Init(entry, turn, data), schedule), t);
  }

  /** Once the rival has left and memory has its stores, a waiting thread is in
      after one or two loads. */
  lemma FollowsTheRival(s: State, t: Tid) returns (on: seq<Action>)
    requires Inv(s) && Spinning(s.pc.At(t))
    requires s.pc.At(t.Other()) == Idle && s.buf.At(t.Other()) == []
    ensures EntryOnly(on) && Exec(Next, s, on).pc.At(t) == Critical
  {
    ExecOne(Next, s, Run(t));
    ExecTwo(Next, s, Run(t), Run(t));
    on := if Next(s, Run(t)).pc.At(t) == Critical then [Run(t)] else [Run(t), Run(t)];
  }

  lemma AfterTheExit(s: State, t: Tid) returns (on: seq<Action>)
    requires Inv(s) && Spinning(s.pc.At(t)) && s.pc.At(t.Other()) == Critical
    ensures EntryOnly(on) && Exec(Next, Next(s, Post(t.Other())), on).pc.At(t) == Critical
  {
    var left := Next(s, Post(t.Other()));
    NextKeepsInv(s, Post(t.Other()));
    var flushes := DrainBuffer(left, t.Other());
    var loads := FollowsTheRival(Exec(Next, left, flushes), t);
    ExecConcat(Next, left, flushes, loads);
    on := flushes + loads;
  }

  /** No lockout: every waiting thread itself can get in, with entry code,
      flushes and at most one exit of its rival. */
  lemma WaiterGetsIn(entry: Entry, turn: Tid, data: Memory, schedule: seq<Action>, t: Tid)
    returns (first: seq<Action>, exit: seq<Action>, second: seq<Action>)
    requires entry.turnLocked
    requires Spinning(Exec(Next, Init(entry, turn, data), schedule).pc.At(t))
    ensures EntryOnly(first) && EntryOnly(second) && (exit == [] || exit == [Post(t.Other())])
    ensures Exec(Next, Exec(Next, Init(entry, turn, data), schedule), first + exit + second).pc.At(t) == Critical
  {
    var s := Exec(Next, Init(entry, turn, data), schedule);
    ReachableInv(entry, turn, data, schedule);
    first := WaitingEnds(s, t);
    exit, second := [], [];
    var x := Exec(Next, s, first);
    EntryLeavesWaiting(s, t, first);
    ExecKeepsInv(s, first);
    if x.pc.At(t) != Critical {
      assert x.pc.At(t.Other()) == Critical;
      exit := [Post(t.Other())];
      ExecOne(Next, x, Post(t.Other()));
      second := AfterTheExit(x, t);
    }
    InThreeParts(s, first, exit, second);
  }

  // ----------------------------------------------------------- bounded bypass

  /** The step takes thread u into the critical section. */
  ghost function EntersAs(u: Tid): (State, Action) -> bool {
    (s: State, a: Action) => s.pc.At(u) != Critical && Next(s, a).pc.At(u) == Critical
  }

  ghost function Waits(t: Tid): State -> bool {
    (s: State) => Spinning(s.pc.At(t))
  }

  /** How often the rival of a spinning thread t can still overtake it. */
  ghost function Allowance(t: Tid): State -> nat {
    (s: State) => if Spinning(s.pc.At(t.Other())) && s.turn == t.Other() then 1 else 0
  }

  lemma RivalUsesAllowance(s: State, t: Tid, a: Action)
    requires Waits(t)(s) && s.entry.turnLocked && s.flag.At(t) && a.t == t.Other()
    requires Spinning(s.pc.At(a.t)) ==> s.buf.At(a.t) == []
    requires s.buf.At(a.t) != [] ==> !s.buf.At(a.t)[0].SetTurn?
    ensures Allowance(t)(Next(s, a)) + (if EntersAs(t.Other())(s, a) then 1 else 0) <= Allowance(t)(s)
  {
  }

  lemma OvertakingUsesAllowance(s: State, t: Tid, a: Action)
    requires Inv(s) && Waits(t)(s) && Waits(t)(Next(s, a))
    ensures Allowance(t)(Next(s, a)) + (if EntersAs(t.Other())(s, a) then 1 else 0) <= Allowance(t)(s)
  {
    if a.t != t {
      if s.buf.At(a.t) != [] {
        FlushKeepsShape(s.pc.At(a.t), s.buf.At(a.t), s.flag.At(a.t));
      }
      RivalUsesAllowance(s, t, a);
    }
  }

  /** Bounded bypass on store buffers: from any reachable state on, while a
      thread that has stored to `turn` keeps waiting, its rival enters at most
      once, although memory may learn late that it has left. */
  lemma BypassedAtMostOnce(entry: Entry, turn: Tid, data: Memory, prefix: seq<Action>, t: Tid, schedule: seq<Action>)
    requires entry.turnLocked
    requires Throughout(Next, Waits(t), Exec(Next, Init(entry, turn, data), prefix), schedule)
    ensures Work(Next, EntersAs(t.Other()), Exec(Next, Init(entry, turn, data), prefix), schedule) <= 1
  {
    ReachableInv(entry, turn, data, prefix);
    forall s: State, a: Action | Inv(s)
      ensures Inv(Next(s, a))
      ensures Waits(t)(s) && Waits(t)(Next(s, a)) ==>
                Allowance(t)(Next(s, a)) + (if EntersAs(t.Other())(s, a) then 1 else 0) <= Allowance(t)(s)
    {
      NextKeepsInv(s, a);
      if Waits(t)(s) && Waits(t)(Next(s, a)) {
        OvertakingUsesAllowance(s, t, a);
      }
    }
    BoundedWorkWhile(Next, Inv, Waits(t), EntersAs(t.Other()), Allowance(t),
      Exec(Next, Init(entry, turn, data), prefix), schedule);
  }

  // ------------------------------------------------------------------- memory

  /** The machine itself: memory, store buffers and instruction pointers,
      changed in place by one instruction or one flush at a time. */
  class Machine {
    const entry: Entry
    var flag: Two<bool>
    var turn: Tid
    var data: Memory
    var buf: Two<seq<Store>>
    var pc: Two<Pc>
    ghost var logical: Memory

    ghost function View(): State
      reads this
    {
      State(entry, flag, turn, data, buf, pc, logical)
    }

    constructor (entry: Entry, turn: Tid, data: Memory)
      ensures View() == Init(entry, turn, data)
    {
      this.entry := entry;
      this.turn, this.data, this.logical := turn, data, data;
      flag, buf, pc := Two(false, false), Two([], []), Two(Idle, Idle);
    }

    method Buffer(t: Tid, x: Store)
      modifies `buf
      ensures View() == Push(old(View()), t, x)
    {
      buf := buf.With(t, buf.At(t) + [x]);
    }

    /** Memory as seen through the own buffer, newest store first. */
    method LoadOwnTurn(t: Tid) returns (r: Tid)
      ensures r == SeenTurn(buf.At(t), turn)
    {
      var b := buf.At(t);
      assert b[..|b|] == b;
      var i := |b|;
      while i > 0
        invariant 0 <= i <= |b|
        invariant SeenTurn(b, turn) == SeenTurn(b[..i], turn)
      {
        assert b[..i][..i - 1] == b[..i - 1];
        i := i - 1;
        if b[i].SetTurn? {
          return b[i].to;
        }
      }
      r := turn;
    }

    method Load(t: Tid, addr: int) returns (r: int)
      ensures r == SeenData(buf.At(t), data, addr)
    {
      var b := buf.At(t);
      assert b[..|b|] == b;
      var i := |b|;
      while i > 0
        invariant 0 <= i <= |b|
        invariant SeenData(b, data, addr) == SeenData(b[..i], data, addr)
      {
        assert b[..i][..i - 1] == b[..i - 1];
        i := i - 1;
        if b[i].SetData? && b[i].addr == addr {
          return b[i].val;
        }
      }
      r := Get(data, addr);
    }

    /** One instruction of Peterson_wait. */
    method WaitStep(t: Tid)
      modifies this
      ensures View() == StepEntry(old(View()), t)
    {
      var u := t.Other();
      match pc.At(t) {
        case Idle =>
          if !entry.flagLocked {
            Buffer(t, SetFlag(true));
            pc := pc.With(t, StoreTurn);
          } else if buf.At(t) == [] {
            flag := flag.With(t, true);
            pc := pc.With(t, StoreTurn);
          }
        case StoreTurn =>
          if !entry.turnLocked {
            Buffer(t, SetTurn(u));
            pc := pc.With(t, LoadFlag);
          } else if buf.At(t) == [] {
            turn := u;
            pc := pc.With(t, LoadFlag);
          }
        case LoadFlag =>
          pc := pc.With(t, if flag.At(u) then LoadTurn else Critical);
        case LoadTurn =>
          var seen := LoadOwnTurn(t);
          pc := pc.With(t, if seen == t then Critical else LoadFlag);
        case Critical =>
      }
    }

    method WriteStep(t: Tid, addr: int, val: int)
      modifies this
      ensures View() == Next(old(View()), Write(t, addr, val))
    {
      if pc.At(t) == Critical {
        Buffer(t, SetData(addr, val));
        logical := logical[addr := val];
      }
    }

    /** Peterson_post: a plain store, nothing is flushed. */
    method PostStep(t: Tid)
      modifies this
      ensures View() == Next(old(View()), Post(t))
    {
      if pc.At(t) == Critical {
        Buffer(t, SetFlag(false));
        pc := pc.With(t, Idle);
      }
    }

    method FlushStep(t: Tid)
      modifies this
      ensures View() == Next(old(View()), Flush(t))
    {
      var b := buf.At(t);
      if b != [] {
        buf := buf.With(t, b[1..]);
        match b[0] {
          case SetFlag(on) => flag := flag.With(t, on);
          case SetTurn(to) => turn := to;
          case SetData(addr, val) => data := data[addr := val];
        }
      }
    }

    method Step(a: Action)
      modifies this
      ensures View() == Next(old(View()), a)
    {
      match a {
        case Run(t) => WaitStep(t);
        case Write(t, addr, val) => WriteStep(t, addr, val);
        case Post(t) => PostStep(t);
        case Flush(t) => FlushStep(t);
      }
    }

    /** Plays a whole schedule. If `turn` is stored with xchg the two threads
        are never inside together, at any moment of it. */
    method Play(schedule: seq<Action>) returns (trace: seq<Two<Pc>>)
      requires View() == Init(entry, turn, data)
      modifies this
      ensures View() == Exec(Next, old(View()), schedule)
      ensures |trace| == |schedule|
      ensures forall i :: 0 <= i < |trace| ==> trace[i] == Exec(Next, old(View()), schedule[..i + 1]).pc
      ensures entry.turnLocked ==>
                forall i :: 0 <= i < |trace| ==> trace[i] != Two(Critical, Critical)
    {
      trace := [];
      for i := 0 to |schedule|
        invariant View() == Exec(Next, old(View()), schedule[..i])
        invariant |trace| == i
        invariant forall k :: 0 <= k < i ==> trace[k] == Exec(Next, old(View()), schedule[..k + 1]).pc
      {
        Step(schedule[i]);
        assert schedule[..i + 1][..i] == schedule[..i];
        trace := trace + [pc];
      }
      assert schedule[..|schedule|] == schedule;
      if entry.turnLocked {
        forall i | 0 <= i < |trace|
          ensures trace[i] != Two(Critical, Critical)
        {
          ReachableInv(entry, old(turn), old(data), schedule[..i + 1]);
        }
      }
    }
  }
}
