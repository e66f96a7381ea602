/** Producers and consumers on the shared ring, and their shutdown: when all
    producers have been joined, a final producer puts one quit item per consumer
    into the ring, and a consumer ends when it takes one.

    The ring is empty at the start; the waits on a full and on an empty ring
    and the exclusion that the sources leave as an exercise are guards here, and
    an append and a take are single steps.
 */
module PoisonPill {
  import opened Runs
  import opened Sums
  import R = SharedRing

  datatype Consumer = Taking | Printing(c: char) | Gone

  /** History only: where an item of the ring comes from. */
  datatype Item = From(p: nat, c: char) | Pill

  /** `sent` holds how many items each producer has stored, `pills` how many quit
      items the final one has. `log` is the history of the items as they were
      stored and `got` that of the characters as the ring has handed them out;
      `takers` and `printers` are the consumers that took and printed each
      character of `got` and `printed`. */
  datatype State = State(
    data: seq<string>, quit: char, ring: R.Ring,
    sent: seq<nat>, pills: nat, consumers: seq<Consumer>, printed: string,
    log: seq<Item>, got: string, takers: seq<nat>, printers: seq<nat>)

  datatype Action = Produce(p: nat) | Terminate | Consume(k: nat)

  const EMPTY_ITEM := '_'

  function Init(data: seq<string>, quit: char, consumers: nat, capacity: nat): State {
    State(data, quit, R.Empty(capacity, EMPTY_ITEM), seq(|data|, _ => 0), 0,
          seq(consumers, _ => Taking), [], [], [], [], [])
  }

  predicate RoomFor(s: State) {
    s.ring.count < |s.ring.buffer| && s.ring.into < |s.ring.buffer|
  }

  /** The producers have all been joined. */
  predicate Joined(s: State) {
    |s.sent| == |s.data| && forall p :: 0 <= p < |s.data| ==> s.sent[p] == |s.data[p]|
  }

  function ProduceStep(s: State, p: nat): State {
    if p < |s.data| && p < |s.sent| && s.sent[p] < |s.data[p]| && RoomFor(s) then
      var c := s.data[p][s.sent[p]];
      s.(ring := R.Put(s.ring, c), sent := s.sent[p := s.sent[p] + 1], log := s.log + [From(p, c)])
    else s
  }

  function TerminateStep(s: State): State {
    if Joined(s) && s.pills < |s.consumers| && RoomFor(s) then
      s.(ring := R.Put(s.ring, s.quit), pills := s.pills + 1, log := s.log + [Pill])
    else s
  }

  function ConsumeStep(s: State, k: nat): State
    requires k < |s.consumers|
  {
    match s.consumers[k]
    case Taking =>
      if s.ring.count > 0 && s.ring.from < |s.ring.buffer| then
        var (ring, c) := R.Get(s.ring);
        s.(ring := ring, got := s.got + [c], takers := s.takers + [k],
           consumers := s.consumers[k := if c == s.quit then Gone else Printing(c)])
      else s
    case Printing(c) =>
      s.(printed := s.printed + [c], printers := s.printers + [k], consumers := s.consumers[k := Taking])
    case Gone => s
  }

  function Next(s: State, a: Action): State {
    match a
    case Produce(p) => ProduceStep(s, p)
    case Terminate => TerminateStep(s)
    case Consume(k) => if k < |s.consumers| then ConsumeStep(s, k) else s
  }

  // ---------------------------------------------------------------- invariant

  ghost function CharOf(x: Item, quit: char): char {
    if x.Pill? then quit else x.c
  }

  /** The items of the log that producer p has stored. */
  ghost function Project(log: seq<Item>, p: nat): string
    decreases |log|
  {
    if log == [] then []
    else
      var x := log[|log| - 1];
      Project(log[..|log| - 1], p) + if x.From? && x.p == p then [x.c] else []
  }

  /** Whether a consumer has taken char c and not printed it yet. */
  ghost function Holds(c: char): Consumer -> int {
    (x: Consumer) => if x == Printing(c) then 1 else 0
  }

  ghost function Staying(x: Consumer): int {
    if x.Gone? then 0 else 1
  }

  /** How often char c occurs among the data items of a log. */
  ghost function Occurs(log: seq<Item>, c: char): int
    decreases |log|
  {
    if log == [] then 0
    else
      var x := log[|log| - 1];
      Occurs(log[..|log| - 1], c) + if x.From? && x.c == c then 1 else 0
  }

  /** The ring holds these items and nothing else. */
  ghost predicate RingHolds(r: R.Ring, items: seq<Item>, quit: char) {
    && R.Valid(r) && r.count == |items|
    && forall i :: 0 <= i < |items| ==> R.Contents(r)[i] == CharOf(items[i], quit)
  }

  ghost predicate RingInv(s: State) {
    && |s.got| <= |s.log| && RingHolds(s.ring, s.log[|s.got|..], s.quit)
    && forall i :: 0 <= i < |s.got| ==> s.got[i] == CharOf(s.log[i], s.quit)
  }

  /** The number of data items stored; the quit items stand behind them. */
  ghost function DataLength(s: State): int {
    |s.log| - s.pills
  }

  ghost predicate LogInv(s: State) {
    && |s.sent| == |s.data|
    && 0 <= DataLength(s)
    && (forall i :: 0 <= i < |s.log| ==> (s.log[i].Pill? <==> i >= DataLength(s)))
    && (forall i :: 0 <= i < |s.log| ==> s.log[i].From? ==> s.log[i].c != s.quit && s.log[i].p < |s.data|)
    && (forall p :: 0 <= p < |s.data| ==> s.sent[p] <= |s.data[p]|)
    && (forall p :: 0 <= p < |s.data| ==> Project(s.log, p) == s.data[p][..s.sent[p]])
    && s.pills <= |s.consumers| && (s.pills > 0 ==> Joined(s))
  }

  /** The number of quit items taken. */
  ghost function PillsTaken(s: State): int {
    if |s.got| <= DataLength(s) then 0 else |s.got| - DataLength(s)
  }

  ghost predicate ConsumerInv(s: State) {
    && |s.got| <= |s.log|
    && Sum(Staying, s.consumers) == |s.consumers| - PillsTaken(s)
    && forall c: char :: multiset(s.printed)[c] + Sum(Holds(c), s.consumers) == Occurs(s.log[..|s.got|], c)
  }

  ghost predicate QuitFree(data: seq<string>, quit: char) {
    forall p :: 0 <= p < |data| ==> quit !in data[p]
  }

  ghost predicate Inv(s: State) {
    QuitFree(s.data, s.quit) && RingInv(s) && LogInv(s) && ConsumerInv(s)
  }

  lemma PutHolds(r: R.Ring, items: seq<Item>, quit: char, x: Item)
    requires RingHolds(r, items, quit) && r.count < |r.buffer|
    ensures RingHolds(R.Put(r, CharOf(x, quit)), items + [x], quit)
  {
    R.PutIsAppendIff(r, CharOf(x, quit));
    assert |R.Contents(r)| == r.count;
  }

  lemma GetHolds(r: R.Ring, items: seq<Item>, quit: char)
    requires RingHolds(r, items, quit) && r.count > 0
    ensures R.Get(r).1 == CharOf(items[0], quit)
    ensures RingHolds(R.Get(r).0, items[1..], quit)
  {
    R.GetIsTakeIff(r);
    var after := R.Get(r).0;
    assert |R.Contents(after)| == after.count;
    forall i | 0 <= i < after.count
      ensures R.Contents(after)[i] == CharOf(items[1..][i], quit)
    {
      assert R.Contents(r)[i + 1] == R.Contents(after)[i];
    }
  }

  lemma ProjectSnoc(log: seq<Item>, x: Item, p: nat)
    ensures Project(log + [x], p) == Project(log, p) + if x.From? && x.p == p then [x.c] else []
  {
    assert (log + [x])[..|log|] == log;
  }

  lemma ProduceProjects(s: State, p: nat, q: nat)
    requires LogInv(s) && p < |s.data| && s.sent[p] < |s.data[p]| && q < |s.data|
    ensures var n := s.sent[p];
      Project(s.log + [From(p, s.data[p][n])], q) == s.data[q][..s.sent[p := n + 1][q]]
  {
    var n := s.sent[p];
    ProjectSnoc(s.log, From(p, s.data[p][n]), q);
    assert s.data[p][..n + 1] == s.data[p][..n] + [s.data[p][n]];
  }

  lemma ProduceKeepsLog(s: State, p: nat)
    requires LogInv(s) && QuitFree(s.data, s.quit)
    ensures LogInv(ProduceStep(s, p))
  {
    if ProduceStep(s, p) != s {
      var c := s.data[p][s.sent[p]];
      forall q | 0 <= q < |s.data|
        ensures Project(s.log + [From(p, c)], q) == s.data[q][..s.sent[p := s.sent[p] + 1][q]]
      {
        ProduceProjects(s, p, q);
      }
      assert s.pills == 0;
      assert c in s.data[p];
    }
  }

  lemma TerminateKeepsLog(s: State)
    requires Inv(s)
    ensures LogInv(TerminateStep(s))
  {
    forall q | 0 <= q < |s.data|
      ensures Project(s.log + [Pill], q) == Project(s.log, q)
    {
      ProjectSnoc(s.log, Pill, q);
    }
  }

  lemma StoreKeepsInv(s: State, a: Action)
    requires Inv(s) && !a.Consume?
    ensures Inv(Next(s, a))
  {
    var s' := Next(s, a);
    if s' != s {
      var x := s'.log[|s.log|];
      PutHolds(s.ring, s.log[|s.got|..], s.quit, x);
      assert s'.log[|s.got|..] == s.log[|s.got|..] + [x];
      assert RingInv(s');
      if a.Produce? {
        ProduceKeepsLog(s, a.p);
      } else {
        TerminateKeepsLog(s);
      }
      StoreKeepsConsumers(s, s');
    }
  }

  lemma StoreKeepsConsumers(s: State, s': State)
    requires ConsumerInv(s) && s'.consumers == s.consumers && s'.printed == s.printed
    requires s.log <= s'.log && s'.got == s.got && PillsTaken(s') == PillsTaken(s)
    ensures ConsumerInv(s')
  {
    assert s'.log[..|s.got|] == s.log[..|s.got|];
  }

  lemma TakeKeepsConsumers(s: State, k: nat, x: Item)
    requires ConsumerInv(s) && LogInv(s) && k < |s.consumers| && s.consumers[k] == Taking
    requires |s.got| < |s.log| && x == s.log[|s.got|]
    ensures ConsumerInv(s.(got := s.got + [CharOf(x, s.quit)], takers := s.takers + [k],
                           consumers := s.consumers[k := if x.Pill? then Gone else Printing(x.c)]))
  {
    var y := if x.Pill? then Gone else Printing(x.c);
    SumUpdate(Staying, s.consumers, k, y);
    assert s.log[..|s.got| + 1][..|s.got|] == s.log[..|s.got|];
    forall c: char
      ensures Occurs(s.log[..|s.got| + 1], c) - Occurs(s.log[..|s.got|], c)
           == Sum(Holds(c), s.consumers[k := y]) - Sum(Holds(c), s.consumers)
    {
      SumUpdate(Holds(c), s.consumers, k, y);
    }
  }

  lemma TakeKeepsInv(s: State, k: nat)
    requires Inv(s) && k < |s.consumers| && s.consumers[k] == Taking
    ensures Inv(ConsumeStep(s, k))
  {
    if ConsumeStep(s, k) != s {
      var items := s.log[|s.got|..];
      GetHolds(s.ring, items, s.quit);
      assert items[1..] == s.log[|s.got| + 1..];
      TakeKeepsConsumers(s, k, items[0]);
    }
  }

  lemma PrintKeepsConsumers(s: State, k: nat, c: char)
    requires ConsumerInv(s) && k < |s.consumers| && s.consumers[k] == Printing(c)
    ensures ConsumerInv(s.(printed := s.printed + [c], printers := s.printers + [k],
                           consumers := s.consumers[k := Taking]))
  {
    SumUpdate(Staying, s.consumers, k, Taking);
    assert multiset(s.printed + [c]) == multiset(s.printed) + multiset{c};
    forall x: char
      ensures Sum(Holds(x), s.consumers[k := Taking]) == Sum(Holds(x), s.consumers) - if x == c then 1 else 0
    {
      SumUpdate(Holds(x), s.consumers, k, Taking);
    }
  }

  lemma PrintKeepsInv(s: State, k: nat)
    requires Inv(s) && k < |s.consumers| && s.consumers[k].Printing?
    ensures Inv(ConsumeStep(s, k))
  {
    PrintKeepsConsumers(s, k, s.consumers[k].c);
  }

  lemma NextKeepsInv(s: State, a: Action)
    requires Inv(s)
    ensures Inv(Next(s, a))
  {
    if !a.Consume? {
      StoreKeepsInv(s, a);
    } else if a.k < |s.consumers| && s.consumers[a.k].Taking? {
      TakeKeepsInv(s, a.k);
    } else if a.k < |s.consumers| && s.consumers[a.k].Printing? {
      PrintKeepsInv(s, a.k);
    }
  }

  ghost predicate SameProgram(s: State, x: State) {
    s.data == x.data && s.quit == x.quit && |s.consumers| == |x.consumers|
    && |s.ring.buffer| == |x.ring.buffer|
  }

  lemma {:induction false} ProgramStays(s: State, schedule: seq<Action>)
    ensures SameProgram(Exec(Next, s, schedule), s)
    decreases |schedule|
  {
    if schedule != [] {
      ProgramStays(s, schedule[..|schedule| - 1]);
    }
  }

  lemma InitInv(data: seq<string>, quit: char, consumers: nat, capacity: nat)
    requires QuitFree(data, quit) && capacity >= 1
    ensures Inv(Init(data, quit, consumers, capacity))
  {
    var s := Init(data, quit, consumers, capacity);
    SumBounds(Staying, s.consumers, 1, 1);
    forall c: char
      ensures Sum(Holds(c), s.consumers) == 0
    {
      SumBounds(Holds(c), s.consumers, 0, 0);
    }
  }

  lemma Reachable(data: seq<string>, quit: char, consumers: nat, capacity: nat, schedule: seq<Action>)
    requires QuitFree(data, quit) && capacity >= 1
    ensures var s := Exec(Next, Init(data, quit, consumers, capacity), schedule);
      Inv(s) && SameProgram(s, Init(data, quit, consumers, capacity))
  {
    InitInv(data, quit, consumers, capacity);
    forall x: State, a: Action | Inv(x)
      ensures Inv(Next(x, a))
    {
      NextKeepsInv(x, a);
    }
    Invariance(Next, Inv, Init(data, quit, consumers, capacity), schedule);
    ProgramStays(Init(data, quit, consumers, capacity), schedule);
  }

  // ------------------------------------------------------------ main theorems

  ghost predicate Final(s: State) {
    forall k :: 0 <= k < |s.consumers| ==> s.consumers[k] == Gone
  }

  lemma {:induction false} ProjectPrefix(log: seq<Item>, n: nat, p: nat)
    requires n <= |log|
    ensures Project(log[..n], p) <= Project(log, p)
    decreases |log|
  {
    if n < |log| {
      assert log[..|log| - 1][..n] == log[..n];
      ProjectPrefix(log[..|log| - 1], n, p);
    } else {
      assert log[..n] == log;
    }
  }

  /** What the ring has handed out of the items of producer p. */
  ghost function Part(log: seq<Item>, got: string, p: nat): string
    requires |got| <= |log|
    decreases |got|
  {
    if got == [] then []
    else
      var n := |got| - 1;
      Part(log, got[..n], p) + if log[n].From? && log[n].p == p then [got[n]] else []
  }

  lemma {:induction false} PartIsProject(log: seq<Item>, got: string, quit: char, p: nat)
    requires |got| <= |log| && forall i :: 0 <= i < |got| ==> got[i] == CharOf(log[i], quit)
    ensures Part(log, got, p) == Project(log[..|got|], p)
    decreases |got|
  {
    if got != [] {
      var n := |got| - 1;
      PartIsProject(log, got[..n], quit, p);
      assert log[..n + 1][..n] == log[..n];
    }
  }

  ghost function Ended(x: Consumer): int {
    if x.Gone? then 1 else 0
  }

  /** In every run the characters that the ring hands out of each producer are
      those it made, in its order. Where it hands out a quit item all data of
      all producers have come out before, and each consumer that has ended has
      got one. */
  lemma TakenInOrder(data: seq<string>, quit: char, consumers: nat, capacity: nat, schedule: seq<Action>, p: nat)
    requires QuitFree(data, quit) && capacity >= 1 && p < |data|
    ensures var s := Exec(Next, Init(data, quit, consumers, capacity), schedule);
      && |s.got| <= |s.log|
      && Part(s.log, s.got, p) <= data[p]
      && (forall i :: 0 <= i < |s.got| && s.got[i] == quit ==> Part(s.log, s.got[..i], p) == data[p])
      && multiset(s.got)[quit] == Sum(Ended, s.consumers)
  {
    var s := Exec(Next, Init(data, quit, consumers, capacity), schedule);
    Reachable(data, quit, consumers, capacity, schedule);
    PartIsProject(s.log, s.got, quit, p);
    ProjectPrefix(s.log, |s.got|, p);
    forall i | 0 <= i < |s.got| && s.got[i] == quit
      ensures Part(s.log, s.got[..i], p) == data[p]
    {
      PartIsProject(s.log, s.got[..i], quit, p);
      OnlyPillsLeft(s, i, p);
    }
    QuitsInGot(s, |s.got|);
    EndedOrStaying(s.consumers);
    assert s.got[..|s.got|] == s.got;
  }

  lemma {:induction false} EndedOrStaying(xs: seq<Consumer>)
    ensures Sum(Ended, xs) == |xs| - Sum(Staying, xs)
    decreases |xs|
  {
    if xs != [] {
      EndedOrStaying(xs[..|xs| - 1]);
    }
  }

  lemma {:induction false} QuitsInGot(s: State, n: nat)
    requires RingInv(s) && LogInv(s) && n <= |s.got|
    ensures multiset(s.got[..n])[s.quit] == if n <= DataLength(s) then 0 else n - DataLength(s)
    decreases n
  {
    if n > 0 {
      QuitsInGot(s, n - 1);
      assert s.got[..n] == s.got[..n - 1] + [s.got[n - 1]];
      assert s.got[n - 1] == CharOf(s.log[n - 1], s.quit);
    }
  }

  lemma OnlyPillsLeft(s: State, i: nat, p: nat)
    requires LogInv(s) && p < |s.data| && i < |s.log| && CharOf(s.log[i], s.quit) == s.quit
    ensures Project(s.log[..i], p) == s.data[p]
  {
    assert s.log[i].Pill?;
    PillsProjectToNothing(s.log, i, p);
    assert s.data[p][..|s.data[p]|] == s.data[p];
  }

  lemma {:induction false} PillsProjectToNothing(log: seq<Item>, n: nat, p: nat)
    requires n <= |log| && forall i :: n <= i < |log| ==> log[i] == Pill
    ensures Project(log[..n], p) == Project(log, p)
    decreases |log|
  {
    if n < |log| {
      assert log[..|log| - 1][..n] == log[..n];
      PillsProjectToNothing(log[..|log| - 1], n, p);
    } else {
      assert log[..n] == log;
    }
  }

  /** The characters of a text that belong to k. */
  ghost function Mine(text: string, who: seq<nat>, k: nat): string
    requires |who| == |text|
    decreases |text|
  {
    if text == [] then []
    else
      var n := |text| - 1;
      if who[n] == k then Mine(text[..n], who[..n], k) + [text[n]] else Mine(text[..n], who[..n], k)
  }

  lemma MineOneMore(text: string, who: seq<nat>, k: nat, c: char, x: nat)
    requires |who| == |text|
    ensures Mine(text + [c], who + [x], k) == if x == k then Mine(text, who, k) + [c] else Mine(text, who, k)
  {
    assert (text + [c])[..|text|] == text && (who + [x])[..|who|] == who;
  }

  /** What a consumer has taken and not printed. */
  ghost function InHand(x: Consumer, quit: char): string {
    match x
    case Taking => []
    case Printing(c) => [c]
    case Gone => [quit]
  }

  ghost predicate OwnOrder(s: State, k: nat)
    requires k < |s.consumers|
  {
    && |s.takers| == |s.got| && |s.printers| == |s.printed|
    && Mine(s.got, s.takers, k) == Mine(s.printed, s.printers, k) + InHand(s.consumers[k], s.quit)
  }

  ghost predicate InOwnOrder(s: State) {
    && |s.takers| == |s.got| && |s.printers| == |s.printed|
    && (forall i :: 0 <= i < |s.takers| ==> s.takers[i] < |s.consumers|)
    && (forall i :: 0 <= i < |s.printers| ==> s.printers[i] < |s.consumers|)
    && forall k :: 0 <= k < |s.consumers| ==> OwnOrder(s, k)
  }

  lemma ConsumeKeepsOrder(s: State, k: nat, j: nat)
    requires k < |s.consumers| && j < |s.consumers| && OwnOrder(s, j) && OwnOrder(s, k)
    ensures j < |ConsumeStep(s, k).consumers| && OwnOrder(ConsumeStep(s, k), j)
  {
    match s.consumers[k] {
      case Taking =>
        if s.ring.count > 0 && s.ring.from < |s.ring.buffer| {
          MineOneMore(s.got, s.takers, j, R.Get(s.ring).1, k);
        }
      case Printing(c) =>
        MineOneMore(s.printed, s.printers, j, c, k);
      case Gone =>
    }
  }

  lemma NextKeepsOrder(s: State, a: Action)
    requires InOwnOrder(s)
    ensures InOwnOrder(Next(s, a))
  {
    var s' := Next(s, a);
    forall j | 0 <= j < |s'.consumers|
      ensures OwnOrder(s', j)
    {
      assert OwnOrder(s, j);
      if a.Consume? && a.k < |s.consumers| {
        assert OwnOrder(s, a.k);
        ConsumeKeepsOrder(s, a.k, j);
      }
    }
  }

  /** In every run, of whatever data, each consumer prints the characters that it
      takes in the order it takes them, all but the one it has in hand and the
      quit item on which it ends. */
  lemma PrintedInOrder(data: seq<string>, quit: char, consumers: nat, capacity: nat, schedule: seq<Action>, k: nat)
    requires k < consumers
    ensures var s := Exec(Next, Init(data, quit, consumers, capacity), schedule);
      && |s.consumers| == consumers && |s.takers| == |s.got| && |s.printers| == |s.printed|
      && Mine(s.got, s.takers, k) == Mine(s.printed, s.printers, k) + InHand(s.consumers[k], quit)
  {
    OrderIsKept(data, quit, consumers, capacity, schedule);
    assert OwnOrder(Exec(Next, Init(data, quit, consumers, capacity), schedule), k);
  }

  lemma OrderIsKept(data: seq<string>, quit: char, consumers: nat, capacity: nat, schedule: seq<Action>)
    ensures var s := Exec(Next, Init(data, quit, consumers, capacity), schedule);
      InOwnOrder(s) && SameProgram(s, Init(data, quit, consumers, capacity))
  {
    forall s: State, a: Action | InOwnOrder(s)
      ensures InOwnOrder(Next(s, a))
    {
      NextKeepsOrder(s, a);
    }
    Invariance(Next, InOwnOrder, Init(data, quit, consumers, capacity), schedule);
    ProgramStays(Init(data, quit, consumers, capacity), schedule);
  }

  lemma {:induction false} AllMine(text: string, who: seq<nat>)
    requires |who| == |text| && forall i :: 0 <= i < |who| ==> who[i] == 0
    ensures Mine(text, who, 0) == text
    decreases |text|
  {
    if text != [] {
      AllMine(text[..|text| - 1], who[..|text| - 1]);
    }
  }

  /** A single consumer prints what the ring hands out. */
  lemma SoleConsumerPrints(data: seq<string>, quit: char, capacity: nat, schedule: seq<Action>)
    ensures var s := Exec(Next, Init(data, quit, 1, capacity), schedule);
      |s.consumers| == 1 && s.got == s.printed + InHand(s.consumers[0], quit)
  {
    var s := Exec(Next, Init(data, quit, 1, capacity), schedule);
    OrderIsKept(data, quit, 1, capacity, schedule);
    assert OwnOrder(s, 0);
    AllMine(s.got, s.takers);
    AllMine(s.printed, s.printers);
  }

  lemma {:induction false} PartIsAll(log: seq<Item>, text: string)
    requires |text| <= |log| && forall i :: 0 <= i < |text| ==> log[i].From? && log[i].p == 0
    ensures Part(log, text, 0) == text
    decreases |text|
  {
    if text != [] {
      PartIsAll(log, text[..|text| - 1]);
    }
  }

  lemma PrintsABeginning(s: State)
    requires RingInv(s) && LogInv(s) && |s.data| == 1
    requires s.printed <= s.got && s.quit !in s.printed
    ensures s.printed <= s.data[0]
  {
    forall i | 0 <= i < |s.printed|
      ensures s.log[i].From? && s.log[i].p == 0
    {
      assert s.got[i] == s.printed[i] && s.printed[i] in s.printed;
    }
    PartIsAll(s.log, s.printed);
    PartIsProject(s.log, s.printed, s.quit, 0);
    ProjectPrefix(s.log, |s.printed|, 0);
  }

  /** And of a single producer it prints, at any moment, a beginning of the data
      and in the end all of it. */
  lemma OneToOneInOrder(items: string, quit: char, capacity: nat, schedule: seq<Action>)
    requires quit !in items && capacity >= 1
    ensures var s := Exec(Next, Init([items], quit, 1, capacity), schedule);
      s.printed <= items && (Final(s) ==> s.printed == items)
  {
    var s := Exec(Next, Init([items], quit, 1, capacity), schedule);
    Reachable([items], quit, 1, capacity, schedule);
    SoleConsumerPrints([items], quit, capacity, schedule);
    QuitIsNeverPrinted([items], quit, 1, capacity, schedule);
    PrintsABeginning(s);
    if Final(s) {
      EverythingPrinted([items], quit, 1, capacity, schedule);
      assert Concat([items]) == items;
      assert |multiset(s.printed)| == |multiset(items)|;
    }
  }

  /** All data, one producer after the other. */
  ghost function Concat(data: seq<string>): string
    decreases |data|
  {
    if data == [] then [] else Concat(data[..|data| - 1]) + data[|data| - 1]
  }

  /** How often c occurs in the items of the first n producers. */
  ghost function OccursBelow(log: seq<Item>, n: nat, c: char): int {
    if n == 0 then 0 else OccursBelow(log, n - 1, c) + multiset(Project(log, n - 1))[c]
  }

  lemma {:induction false} OccursBelowSnoc(log: seq<Item>, x: Item, n: nat, c: char)
    ensures OccursBelow(log + [x], n, c)
         == OccursBelow(log, n, c) + if x.From? && x.c == c && x.p < n then 1 else 0
    decreases n
  {
    if n > 0 {
      OccursBelowSnoc(log, x, n - 1, c);
      ProjectSnoc(log, x, n - 1);
    }
  }

  lemma {:induction false} OccursIsSum(log: seq<Item>, n: nat, c: char)
    requires forall i :: 0 <= i < |log| ==> log[i].From? ==> log[i].p < n
    ensures Occurs(log, c) == OccursBelow(log, n, c)
    decreases |log|
  {
    if log == [] {
      NothingOccurs(n, c);
    } else {
      var before, x := log[..|log| - 1], log[|log| - 1];
      OccursIsSum(before, n, c);
      assert log == before + [x];
      OccursBelowSnoc(before, x, n, c);
    }
  }

  lemma {:induction false} NothingOccurs(n: nat, c: char)
    ensures OccursBelow([], n, c) == 0
  {
    if n > 0 {
      NothingOccurs(n - 1, c);
    }
  }

  lemma {:induction false} OccursInConcat(log: seq<Item>, data: seq<string>, n: nat, c: char)
    requires n <= |data| && forall p :: 0 <= p < n ==> Project(log, p) == data[p]
    ensures OccursBelow(log, n, c) == multiset(Concat(data[..n]))[c]
    decreases n
  {
    if n > 0 {
      assert data[..n][..n - 1] == data[..n - 1];
      OccursInConcat(log, data, n - 1, c);
    }
  }

  lemma AllTaken(s: State)
    requires Inv(s) && Final(s) && |s.consumers| >= 1
    ensures s.pills == |s.consumers| == PillsTaken(s) && |s.got| == |s.log| && Joined(s)
  {
    SumBounds(Staying, s.consumers, 0, 0);
  }

  /** When all consumers have ended, each has taken one quit item and no other
      is left, the ring is empty, and what they printed is, as a multiset, what
      the producers were to produce. */
  lemma EverythingPrinted(data: seq<string>, quit: char, consumers: nat, capacity: nat, schedule: seq<Action>)
    requires QuitFree(data, quit) && capacity >= 1 && consumers >= 1
    requires Final(Exec(Next, Init(data, quit, consumers, capacity), schedule))
    ensures var s := Exec(Next, Init(data, quit, consumers, capacity), schedule);
      && multiset(s.printed) == multiset(Concat(data))
      && R.Valid(s.ring) && R.Contents(s.ring) == []
      && s.pills == PillsTaken(s) == consumers
  {
    var s := Exec(Next, Init(data, quit, consumers, capacity), schedule);
    Reachable(data, quit, consumers, capacity, schedule);
    AllTaken(s);
    AllPrinted(s);
  }

  lemma AllPrinted(s: State)
    requires LogInv(s) && ConsumerInv(s) && Final(s) && |s.got| == |s.log| && Joined(s)
    ensures multiset(s.printed) == multiset(Concat(s.data))
  {
    assert s.log[..|s.log|] == s.log && s.data[..|s.data|] == s.data;
    assert forall p :: 0 <= p < |s.data| ==> s.data[p][..|s.data[p]|] == s.data[p];
    forall c: char
      ensures multiset(s.printed)[c] == multiset(Concat(s.data))[c]
    {
      SumBounds(Holds(c), s.consumers, 0, 0);
      OccursIsSum(s.log, |s.data|, c);
      OccursInConcat(s.log, s.data, |s.data|, c);
    }
  }

  ghost predicate QuitIsNotPrinted(s: State) {
    s.quit !in s.printed && forall k :: 0 <= k < |s.consumers| ==> s.consumers[k] != Printing(s.quit)
  }

  lemma QuitIsNeverPrinted(data: seq<string>, quit: char, consumers: nat, capacity: nat, schedule: seq<Action>)
    ensures QuitIsNotPrinted(Exec(Next, Init(data, quit, consumers, capacity), schedule))
  {
    forall x: State, a: Action | QuitIsNotPrinted(x)
      ensures QuitIsNotPrinted(Next(x, a))
    {
    }
    Invariance(Next, QuitIsNotPrinted, Init(data, quit, consumers, capacity), schedule);
  }

  lemma {:induction false} ConcatHas(data: seq<string>, p: nat, c: char)
    requires p < |data| && c in data[p]
    ensures c in Concat(data)
    decreases |data|
  {
    if p < |data| - 1 {
      ConcatHas(data[..|data| - 1], p, c);
    }
  }

  /** A run whose consumers have all ended has printed the data exactly if no
      producer makes the quit item. */
  lemma EverythingPrintedIff(data: seq<string>, quit: char, consumers: nat, capacity: nat, schedule: seq<Action>)
    requires capacity >= 1 && consumers >= 1
    requires Final(Exec(Next, Init(data, quit, consumers, capacity), schedule))
    ensures multiset(Exec(Next, Init(data, quit, consumers, capacity), schedule).printed) == multiset(Concat(data))
      <==> QuitFree(data, quit)
  {
    var s := Exec(Next, Init(data, quit, consumers, capacity), schedule);
    if QuitFree(data, quit) {
      EverythingPrinted(data, quit, consumers, capacity, schedule);
    } else {
      var p :| 0 <= p < |data| && quit in data[p];
      ConcatHas(data, p, quit);
      assert quit in multiset(Concat(data));
      QuitIsNeverPrinted(data, quit, consumers, capacity, schedule);
      ProgramStays(Init(data, quit, consumers, capacity), schedule);
      assert quit !in multiset(s.printed);
    }
  }

  // ----------------------------------------------------------------- progress

  predicate CanStep(s: State, a: Action) {
    Next(s, a) != s
  }

  /** No run is stuck: as long as a consumer has not ended, some thread can go on. */
  lemma SomebodyCanStep(s: State) returns (a: Action)
    requires Inv(s) && !Final(s)
    ensures CanStep(s, a)
  {
    var k :| 0 <= k < |s.consumers| && s.consumers[k] != Gone;
    if s.consumers[k].Printing? || s.ring.count > 0 {
      a := Consume(k);
      assert Next(s, a).consumers[k] != s.consumers[k] || Next(s, a).got != s.got;
    } else if p :| 0 <= p < |s.data| && s.sent[p] != |s.data[p]| {
      a := Produce(p);
      assert Next(s, a).sent[p] != s.sent[p];
    } else {
      SumAtLeastOne(Staying, s.consumers, k);
      a := Terminate;
      assert Next(s, a).pills != s.pills;
    }
  }

  ghost function TotalLength(data: seq<string>): nat {
    |Concat(data)|
  }

  ghost function Busy(x: Consumer): int {
    if x.Printing? then 1 else 0
  }

  ghost function Measure(s: State): nat {
    var m := 3 * (TotalLength(s.data) - DataLength(s)) + 3 * (|s.consumers| - s.pills)
             + 2 * (|s.log| - |s.got|) + Sum(Busy, s.consumers);
    if m < 0 then 0 else m
  }

  lemma {:induction false} LengthBelow(log: seq<Item>, data: seq<string>, n: nat)
    requires n <= |data| && forall p :: 0 <= p < n ==> |Project(log, p)| <= |data[p]|
    ensures LengthOf(log, n) <= |Concat(data[..n])|
    decreases n
  {
    if n > 0 {
      assert data[..n][..n - 1] == data[..n - 1];
      LengthBelow(log, data, n - 1);
    }
  }

  /** How many items the first n producers have in the log. */
  ghost function LengthOf(log: seq<Item>, n: nat): nat {
    if n == 0 then 0 else LengthOf(log, n - 1) + |Project(log, n - 1)|
  }

  lemma {:induction false} LengthOfSnoc(log: seq<Item>, x: Item, n: nat)
    ensures LengthOf(log + [x], n) == LengthOf(log, n) + if x.From? && x.p < n then 1 else 0
    decreases n
  {
    if n > 0 {
      LengthOfSnoc(log, x, n - 1);
      ProjectSnoc(log, x, n - 1);
    }
  }

  lemma {:induction false} LengthIsSum(log: seq<Item>, n: nat, pills: nat)
    requires pills <= |log|
    requires forall i :: 0 <= i < |log| ==> (log[i].Pill? <==> i >= |log| - pills)
    requires forall i :: 0 <= i < |log| ==> log[i].From? ==> log[i].p < n
    ensures LengthOf(log, n) == |log| - pills
    decreases |log|
  {
    if log == [] {
      NoLength(n);
    } else {
      var m := |log| - 1;
      LengthIsSum(log[..m], n, if pills == 0 then 0 else pills - 1);
      LengthOfSnoc(log[..m], log[m], n);
      assert log == log[..m] + [log[m]];
    }
  }

  lemma {:induction false} NoLength(n: nat)
    ensures LengthOf([], n) == 0
  {
    if n > 0 {
      NoLength(n - 1);
    }
  }

  lemma DataLengthIsBounded(s: State)
    requires LogInv(s)
    ensures DataLength(s) <= TotalLength(s.data)
  {
    LengthIsSum(s.log, |s.data|, s.pills);
    LengthBelow(s.log, s.data, |s.data|);
    assert s.data[..|s.data|] == s.data;
  }

  lemma StoreMeasureFalls(s: State, a: Action)
    requires Inv(s) && LogInv(Next(s, a)) && !a.Consume?
    ensures CanStep(s, a) ==> Measure(Next(s, a)) < Measure(s)
  {
    DataLengthIsBounded(s);
    DataLengthIsBounded(Next(s, a));
    SumIsNotNegative(Busy, s.consumers);
  }

  lemma ConsumeMeasureFalls(s: State, k: nat)
    requires Inv(s) && k < |s.consumers|
    ensures var s' := ConsumeStep(s, k); s' == s || Measure(s') < Measure(s)
  {
    var x := ConsumeStep(s, k).consumers[k];
    DataLengthIsBounded(s);
    SumIsNotNegative(Busy, s.consumers);
    SumIsNotNegative(Busy, s.consumers[k := x]);
    SumUpdate(Busy, s.consumers, k, x);
  }

  lemma MeasureFalls(s: State, a: Action)
    requires Inv(s) && Inv(Next(s, a))
    ensures Measure(Next(s, a)) + (if CanStep(s, a) then 1 else 0) <= Measure(s)
  {
    if !a.Consume? {
      StoreMeasureFalls(s, a);
    } else if a.k < |s.consumers| {
      ConsumeMeasureFalls(s, a.k);
    }
  }

  /** No run goes on for ever: three steps for each item of data and of quitting
      are all there are. */
  lemma WorkIsBounded(data: seq<string>, quit: char, consumers: nat, capacity: nat, schedule: seq<Action>)
    requires QuitFree(data, quit) && capacity >= 1
    ensures Work(Next, CanStep, Init(data, quit, consumers, capacity), schedule)
         <= 3 * (|Concat(data)| + consumers)
  {
    var s := Init(data, quit, consumers, capacity);
    InitInv(data, quit, consumers, capacity);
    SumBounds(Busy, s.consumers, 0, 0);
    forall x: State, a: Action | Inv(x)
      ensures Inv(Next(x, a))
      ensures Measure(Next(x, a)) + (if CanStep(x, a) then 1 else 0) <= Measure(x)
    {
      NextKeepsInv(x, a);
      MeasureFalls(x, a);
    }
    BoundedWork(Next, Inv, CanStep, Measure, s, schedule);
  }

  /** No deadlock in any run, whatever the numbers of threads and the capacity. */
  lemma NoDeadlock(data: seq<string>, quit: char, consumers: nat, capacity: nat, schedule: seq<Action>)
    requires QuitFree(data, quit) && capacity >= 1
    ensures var s := Exec(Next, Init(data, quit, consumers, capacity), schedule);
      Final(s) || exists a: Action :: CanStep(s, a)
  {
    Reachable(data, quit, consumers, capacity, schedule);
    var s := Exec(Next, Init(data, quit, consumers, capacity), schedule);
    if !Final(s) {
      var a := SomebodyCanStep(s);
    }
  }

  // -------------------------------------------------------------- the program

  /** The shared storage and the threads that use it. */
  class Program {
    const data: seq<string>
    const quit: char
    const storage: R.SharedStorage
    var sent: seq<nat>
    var pills: nat
    var consumers: seq<Consumer>
    var printed: string
    ghost var log: seq<Item>
    ghost var got: string
    ghost var takers: seq<nat>
    ghost var printers: seq<nat>

    ghost function View(): State
      reads this, storage, storage.buffer
    {
      State(data, quit, storage.View(), sent, pills, consumers, printed, log, got,
            takers, printers)
    }

    constructor (data: seq<string>, quit: char, count: nat, capacity: nat)
      requires capacity >= 1
      ensures fresh(storage) && fresh(storage.buffer)
      ensures View() == Init(data, quit, count, capacity)
    {
      this.data, this.quit := data, quit;
      storage := new R.SharedStorage(capacity, EMPTY_ITEM);
      sent, pills, printed := seq(|data|, _ => 0), 0, [];
      consumers := seq(count, _ => Taking);
      log, got, takers, printers := [], [], [], [];
    }

    method ProducerStep(p: nat)
      requires R.Valid(storage.View()) && |sent| == |data|
      modifies this, storage, storage.buffer
      ensures View() == ProduceStep(old(View()), p)
      ensures storage.buffer == old(storage.buffer)
    {
      if p < |data| && sent[p] < |data[p]| {
        var c := data[p][sent[p]];
        assert |R.Contents(storage.View())| == storage.count;
        var stored := storage.Append(c);
        if stored {
          sent := sent[p := sent[p] + 1];
          log := log + [From(p, c)];
        }
      }
    }

    /** The final producer, which main starts after it has joined the others. */
    method FinalProducerStep()
      requires R.Valid(storage.View()) && |sent| == |data|
      modifies this, storage, storage.buffer
      ensures View() == TerminateStep(old(View()))
      ensures storage.buffer == old(storage.buffer)
    {
      if (forall p :: 0 <= p < |data| ==> sent[p] == |data[p]|) && pills < |consumers| {
        assert |R.Contents(storage.View())| == storage.count;
        var stored := storage.Append(quit);
        if stored {
          pills := pills + 1;
          log := log + [Pill];
        }
      }
    }

    method ConsumerStep(k: nat)
      requires R.Valid(storage.View()) && k < |consumers|
      modifies this, storage
      ensures View() == ConsumeStep(old(View()), k)
      ensures storage.buffer == old(storage.buffer)
    {
      match consumers[k] {
        case Taking =>
          assert |R.Contents(storage.View())| == storage.count;
          var found, item := storage.Take();
          if found {
            got, takers := got + [item], takers + [k];
            consumers := consumers[k := if item == quit then Gone else Printing(item)];
          }
        case Printing(c) =>
          printed, printers := printed + [c], printers + [k];
          consumers := consumers[k := Taking];
        case Gone =>
      }
    }

    /** Plays a schedule from the start; a run that ends has printed everything. */
    method Play(schedule: seq<Action>)
      requires View() == Init(data, quit, |consumers|, storage.buffer.Length)
      requires QuitFree(data, quit) && storage.buffer.Length >= 1
      modifies this, storage, storage.buffer
      ensures View() == Exec(Next, old(View()), schedule)
      ensures InOwnOrder(View())
      ensures |consumers| >= 1 && Final(View()) ==> multiset(printed) == multiset(Concat(data))
      ensures |data| == |consumers| == 1 && Final(View()) ==> printed == data[0]
    {
      for n := 0 to |schedule|
        invariant View() == Exec(Next, old(View()), schedule[..n])
        invariant storage.buffer == old(storage.buffer)
      {
        Reachable(data, quit, old(|consumers|), old(storage.buffer.Length), schedule[..n]);
        match schedule[n] {
          case Produce(p) => ProducerStep(p);
          case Terminate => FinalProducerStep();
          case Consume(k) => if k < |consumers| { ConsumerStep(k); }
        }
        assert schedule[..n + 1][..n] == schedule[..n];
      }
      assert schedule[..|schedule|] == schedule;
      OrderIsKept(data, quit, old(|consumers|), old(storage.buffer.Length), schedule);
      if |data| == |consumers| == 1 {
        assert data == [data[0]];
        OneToOneInOrder(data[0], quit, old(storage.buffer.Length), schedule);
      }
      if |consumers| >= 1 && forall k :: 0 <= k < |consumers| ==> consumers[k] == Gone {
        EverythingPrinted(data, quit, old(|consumers|), old(storage.buffer.Length), schedule);
      }
    }
  }
}
