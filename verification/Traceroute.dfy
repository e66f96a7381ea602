/** The bookkeeping of traceroute: which probes are sent, which one is the final
    one, and who owns the host names that probes of one row share.

    What comes back for a probe is arbitrary: a sequence of replies, indexed by
    the probe number, stands for the network.
 */
module Traceroute {
  import opened Rows

  const AF_INET := 2
  const AF_INET6 := 10
  const ICMP_DEST_UNREACH := 3
  const ICMP_TIME_EXCEEDED := 11
  const ICMP_EXC_TTL := 0
  const ICMP_UNREACH_PORT := 3

  /** An address is its family and its bits; family 0 is an address never set. */
  datatype Addr = Addr(family: nat, bits: nat)

  const UNSET := Addr(0, 0)

  /** LocalError is an error of the socket that is not an ICMP message. */
  datatype Reply =
    | SendFailed
    | Timeout
    | Icmp(sender: Addr, kind: nat, code: nat)
    | Answer(sender: Addr)
    | LocalError

  /** A host name is a pointer: null, one of the two static strings, or a string
      on the heap, called after the probe that allocated it. */
  datatype Host = Null | Unknown | BadFamily | Heap(id: nat)

  datatype Result = NoResult | Ok | ErrSend | ErrRecv | ErrTimeout

  datatype Probe = Probe(addr: Addr, host: Host, result: Result)

  const BLANK := Probe(UNSET, Null, NoResult)

  predicate SameIp(a: Addr, b: Addr) {
    a.family == b.family && (a.family == AF_INET || a.family == AF_INET6) && a.bits == b.bits
  }

  function AddrOf(r: Reply): Addr {
    if r.Icmp? || r.Answer? then r.sender else UNSET
  }

  /** parse_icmp_response() and traceroute_receive(): whether they set the final
      probe. */
  predicate Terminal(r: Reply) {
    match r
    case Answer(_) => true
    case Icmp(_, kind, code) => !(kind == ICMP_TIME_EXCEEDED && code == ICMP_EXC_TTL)
    case _ => false
  }

  /** Whether parse_icmp_response() stores an error string. */
  predicate HasErrorText(r: Reply) {
    r.Icmp? && Terminal(r) && !(r.kind == ICMP_DEST_UNREACH && r.code == ICMP_UNREACH_PORT)
  }

  /** A router on the way answers with message 11, code 0; every other message
      and every answer comes from where the way ends. */
  ghost predicate EndsTheWay(r: Reply) {
    r.Answer? || (r.Icmp? && !(r.kind == 11 && r.code == 0))
  }

  lemma TerminalIff(r: Reply)
    ensures Terminal(r) <==> EndsTheWay(r)
  {
  }

  /** The result of a probe: message 11, code 0 and message 3, code 3 tell no
      error, all other messages do. */
  function ResultOf(r: Reply): Result {
    match r
    case SendFailed => ErrSend
    case Timeout => ErrTimeout
    case Answer(_) => Ok
    case LocalError => Ok
    case Icmp(_, kind, code) =>
      if (kind == 11 && code == 0) || (kind == 3 && code == 3) then Ok else ErrRecv
  }

  function Ttl(pn: nat, q: nat): int
    requires q >= 1
  {
    1 + pn / q
  }

  // ------------------------------------------------- where the probing stops

  ghost predicate AnyTerminal(replies: seq<Reply>, lo: nat, hi: nat)
    requires hi <= |replies|
  {
    exists k :: lo <= k < hi && EndsTheWay(replies[k])
  }

  ghost predicate AllSent(replies: seq<Reply>, lo: nat, hi: nat)
    requires hi <= |replies|
  {
    forall k :: lo <= k < hi ==> replies[k] != SendFailed
  }

  /** Probing from probe lo on, in rows of q, ends before probe n: with a failed
      send, at the end of the first row that has a terminal reply, or at the end
      of all rows. */
  ghost predicate StopsAt(replies: seq<Reply>, q: nat, lo: nat, n: nat) {
    && q >= 1 && Place(lo, q) == 0 && Place(|replies|, q) == 0
    && (if lo >= |replies| then n == lo else lo < n <= |replies|)
    && (lo < n ==>
         && AllSent(replies, lo, n - 1)
         && (replies[n - 1] == SendFailed
             || (Place(n, q) == 0 && (n == |replies| || AnyTerminal(replies, lo, n))))
         && forall m :: lo <= m < n && Place(m, q) == 0 ==> !AnyTerminal(replies, lo, m))
  }

  lemma StopIsUnique(replies: seq<Reply>, q: nat, lo: nat, n: nat, m: nat)
    requires StopsAt(replies, q, lo, n) && StopsAt(replies, q, lo, m)
    ensures n == m
  {
  }

  ghost predicate Aborted(replies: seq<Reply>, lo: nat, n: nat) {
    lo < n <= |replies| && replies[n - 1] == SendFailed
  }

  /** The packets sent: probe numbers and their time to live. */
  ghost function Packets(q: nat, lo: nat, n: nat): seq<(nat, int)>
    requires q >= 1 && lo <= n
  {
    if n == lo then [] else Packets(q, lo, n - 1) + [(n - 1, 1 + Row(n - 1, q))]
  }

  lemma {:induction false} PacketAt(q: nat, lo: nat, n: nat, i: nat)
    requires q >= 1 && lo <= n && i < n - lo
    ensures |Packets(q, lo, n)| == n - lo && Packets(q, lo, n)[i] == (lo + i, 1 + Row(lo + i, q))
    decreases n
  {
    if n - 1 > lo {
      PacketAt(q, lo, n - 1, if i < n - 1 - lo then i else 0);
    }
  }

  ghost predicate IsLeastTerminal(replies: seq<Reply>, lo: nat, n: nat, final: int)
    requires n <= |replies|
  {
    if final < 0 then final == -1 && !AnyTerminal(replies, lo, n)
    else lo <= final < n && EndsTheWay(replies[final]) && !AnyTerminal(replies, lo, final)
  }

  ghost predicate IsGreatestTerminal(replies: seq<Reply>, lo: nat, n: nat, final: int)
    requires n <= |replies|
  {
    if final < 0 then final == -1 && !AnyTerminal(replies, lo, n)
    else lo <= final < n && EndsTheWay(replies[final]) && !AnyTerminal(replies, final + 1, n)
  }

  // --------------------------------------------------------------- host names

  ghost predicate ComesFrom(r: Reply, a: Addr) {
    (r.Icmp? || r.Answer?) && r.sender == a
  }

  ghost predicate FromNowhere(r: Reply) {
    r.LocalError? || ((r.Icmp? || r.Answer?) && r.sender.family == 0)
  }

  /** Addresses that can be compared: families 2 and 10. */
  predicate IsInternet(a: Addr) {
    a.family == 2 || a.family == 10
  }

  lemma SameIpIff(a: Addr, b: Addr)
    ensures SameIp(a, b) <==> a == b && IsInternet(a)
  {
  }

  /** The host name of probe pn: shared with the probe before it if that is in
      the same row and was answered from the same address. */
  function HostAt(replies: seq<Reply>, q: nat, pn: nat): Host
    requires q >= 1 && pn < |replies|
  {
    var r := replies[pn];
    if r.SendFailed? then Null
    else if r.Timeout? then Unknown
    else if Place(pn, q) != 0 && AddrOf(replies[pn - 1]) == AddrOf(r) && IsInternet(AddrOf(r))
            && HostAt(replies, q, pn - 1) != Null
      then HostAt(replies, q, pn - 1)
    else Resolve(r, pn)
  }

  /** addr2str(): a new string, or a static one for an address without family. */
  function Resolve(r: Reply, pn: nat): Host {
    if AddrOf(r).family == 0 then BadFamily else Heap(pn)
  }

  /** A heap string is shared by a contiguous run of probes of a single row, the
      first of which allocated it, and all of them got their reply from the
      same address. */
  lemma {:induction false} SharersAreARun(replies: seq<Reply>, q: nat, pn: nat, j: nat)
    requires q >= 1 && pn < |replies| && HostAt(replies, q, pn).Heap?
    requires HostAt(replies, q, pn).id <= j <= pn
    ensures Row(j, q) == Row(pn, q)
    ensures HostAt(replies, q, j) == HostAt(replies, q, pn)
    ensures ComesFrom(replies[j], AddrOf(replies[pn])) && AddrOf(replies[pn]).family != 0
    ensures j < pn ==> AddrOf(replies[pn]).family == 2 || AddrOf(replies[pn]).family == 10
    decreases pn
  {
    if HostAt(replies, q, pn) != Heap(pn) && j < pn {
      NextPlace(pn - 1, q);
      SharersAreARun(replies, q, pn - 1, j);
    }
  }

  lemma {:induction false} HostIsAllocatedBefore(replies: seq<Reply>, q: nat, pn: nat)
    requires q >= 1 && pn < |replies| && HostAt(replies, q, pn).Heap?
    ensures HostAt(replies, q, pn).id <= pn
    decreases pn
  {
    if HostAt(replies, q, pn) != Heap(pn) {
      HostIsAllocatedBefore(replies, q, pn - 1);
    }
  }

  /** The static strings, and no name, are told by the reply alone: nothing was
      sent, nothing came, or it came from an address without family. */
  lemma {:induction false} NameKinds(replies: seq<Reply>, q: nat, pn: nat)
    requires q >= 1 && pn < |replies|
    ensures HostAt(replies, q, pn) == Null <==> replies[pn].SendFailed?
    ensures HostAt(replies, q, pn) == Unknown <==> replies[pn].Timeout?
    ensures HostAt(replies, q, pn) == BadFamily <==> FromNowhere(replies[pn])
    decreases pn
  {
    if Place(pn, q) != 0 {
      NameKinds(replies, q, pn - 1);
    }
  }

  /** Neighbours of a row share a heap string exactly if they got their replies
      from one address of family 2 or 10. */
  lemma NeighboursShareIff(replies: seq<Reply>, q: nat, pn: nat)
    requires q >= 1 && pn + 1 < |replies| && Row(pn, q) == Row(pn + 1, q)
    ensures (HostAt(replies, q, pn + 1).Heap? && HostAt(replies, q, pn) == HostAt(replies, q, pn + 1)) <==>
      var a := AddrOf(replies[pn]);
      ComesFrom(replies[pn], a) && ComesFrom(replies[pn + 1], a) && (a.family == 2 || a.family == 10)
  {
    NextPlace(pn, q);
    NameKinds(replies, q, pn);
    NameKinds(replies, q, pn + 1);
    if HostAt(replies, q, pn).Heap? {
      HostIsAllocatedBefore(replies, q, pn);
    }
    if HostAt(replies, q, pn + 1).Heap? && HostAt(replies, q, pn) == HostAt(replies, q, pn + 1) {
      SharersAreARun(replies, q, pn + 1, pn);
    }
  }

  /** All probes from i to j of one row got their replies from address a. */
  ghost predicate AllComeFrom(replies: seq<Reply>, q: nat, i: nat, j: nat, a: Addr)
    requires q >= 1 && i <= j < |replies|
  {
    Row(i, q) == Row(j, q) && forall k :: i <= k <= j ==> ComesFrom(replies[k], a)
  }

  /** Two probes share a heap string exactly if they and all probes between them
      are in one row and got their replies from one address of family 2 or 10. */
  lemma {:induction false} ProbesShareIff(replies: seq<Reply>, q: nat, i: nat, j: nat)
    requires q >= 1 && i < j < |replies|
    ensures (HostAt(replies, q, j).Heap? && HostAt(replies, q, i) == HostAt(replies, q, j)) <==>
      var a := AddrOf(replies[j]);
      AllComeFrom(replies, q, i, j, a) && (a.family == 2 || a.family == 10)
    decreases j
  {
    var a := AddrOf(replies[j]);
    if HostAt(replies, q, j).Heap? && HostAt(replies, q, i) == HostAt(replies, q, j) {
      HostIsAllocatedBefore(replies, q, i);
      forall k | i <= k <= j
        ensures ComesFrom(replies[k], a) && Row(k, q) == Row(j, q)
      {
        SharersAreARun(replies, q, j, k);
      }
      SharersAreARun(replies, q, j, i);
    } else if AllComeFrom(replies, q, i, j, a) && (a.family == 2 || a.family == 10) {
      RowsGrow(i, j - 1, q);
      RowsGrow(j - 1, j, q);
      assert ComesFrom(replies[j - 1], a) && ComesFrom(replies[j], a);
      NeighboursShareIff(replies, q, j - 1);
      if i < j - 1 {
        ProbesShareIff(replies, q, i, j - 1);
      }
      assert false;
    }
  }

  lemma {:induction false} RowsGrow(i: nat, j: nat, q: nat)
    requires q >= 1 && i <= j
    ensures Row(i, q) <= Row(j, q)
    decreases j
  {
    if i < j {
      RowsGrow(i, j - 1, q);
      NextPlace(j - 1, q);
    }
  }

  // ------------------------------------------------------------------ cleanup

  /** What is passed to free(), if anything. */
  predicate IsString(h: Host) {
    h.Heap? || h.BadFamily?
  }

  /** Another probe of the row of pn holds the same pointer. */
  predicate SharedInRow(hosts: seq<Host>, q: nat, pn: nat)
    requires q >= 1 && pn < |hosts|
  {
    exists k {:trigger hosts[k]} :: 0 <= k < |hosts| && Row(k, q) == Row(pn, q) && k != pn && hosts[k] == hosts[pn]
  }

  /** The cleanup of one probe: what is freed and the pointers after it. */
  function FreeProbe(hosts: seq<Host>, q: nat, pn: nat): (seq<Host>, seq<Host>)
    requires q >= 1 && pn < |hosts|
  {
    if !IsString(hosts[pn]) then ([], hosts)
    else (if SharedInRow(hosts, q, pn) then [] else [hosts[pn]], hosts[pn := Null])
  }

  /** The strings freed by the cleanup of the first n probes, and what is left. */
  function Cleaned(hosts: seq<Host>, q: nat, n: nat): (r: (seq<Host>, seq<Host>))
    requires q >= 1 && n <= |hosts|
    ensures |r.1| == |hosts|
  {
    if n == 0 then ([], hosts)
    else
      var (freed, left) := Cleaned(hosts, q, n - 1);
      var (f, l) := FreeProbe(left, q, n - 1);
      (freed + f, l)
  }

  /** No later probe of the row holds the pointer of probe pn. */
  ghost predicate LastSharer(hosts: seq<Host>, q: nat, pn: nat)
    requires q >= 1 && pn < |hosts|
  {
    forall k {:trigger hosts[k]} :: pn < k < |hosts| && Row(k, q) == Row(pn, q) ==> hosts[k] != hosts[pn]
  }

  lemma {:induction false} CleanedHosts(hosts: seq<Host>, q: nat, n: nat)
    requires q >= 1 && n <= |hosts|
    ensures var left := Cleaned(hosts, q, n).1;
      && (forall k :: 0 <= k < n ==> left[k] == if hosts[k].Unknown? then Unknown else Null)
      && (forall k :: n <= k < |hosts| ==> left[k] == hosts[k])
  {
    if n > 0 {
      CleanedHosts(hosts, q, n - 1);
    }
  }

  /** The cleanup of a probe frees its string exactly if no later probe of the
      row still needs it. */
  lemma {:induction false} FreesAtLastSharer(hosts: seq<Host>, q: nat, n: nat)
    requires q >= 1 && n < |hosts|
    ensures var freed := Cleaned(hosts, q, n).0;
      Cleaned(hosts, q, n + 1).0
      == if !hosts[n].Null? && !hosts[n].Unknown? && LastSharer(hosts, q, n) then freed + [hosts[n]] else freed
  {
    var left := Cleaned(hosts, q, n).1;
    CleanedHosts(hosts, q, n);
    if IsString(hosts[n]) {
      assert left[n] == hosts[n];
      assert SharedInRow(left, q, n) <==> !LastSharer(hosts, q, n);
    }
  }

  /** How many of the first n probes are the last in their row to hold h. */
  ghost function LastSharers(hosts: seq<Host>, q: nat, n: nat, h: Host): nat
    requires q >= 1 && n <= |hosts|
  {
    if n == 0 then 0
    else LastSharers(hosts, q, n - 1, h) + if hosts[n - 1] == h && LastSharer(hosts, q, n - 1) then 1 else 0
  }

  lemma CountOfSnoc(s: seq<Host>, x: Host, h: Host)
    ensures multiset(s + [x])[h] == multiset(s)[h] + if x == h then 1 else 0
  {
  }

  /** The strings whose last holder in its row is among the first n probes. */
  ghost function LastHeld(hosts: seq<Host>, q: nat, n: nat): seq<Host>
    requires q >= 1 && n <= |hosts|
  {
    if n == 0 then []
    else if IsString(hosts[n - 1]) && LastSharer(hosts, q, n - 1) then LastHeld(hosts, q, n - 1) + [hosts[n - 1]]
    else LastHeld(hosts, q, n - 1)
  }

  lemma {:induction false} FreedIsLastHeld(hosts: seq<Host>, q: nat, n: nat)
    requires q >= 1 && n <= |hosts|
    ensures Cleaned(hosts, q, n).0 == LastHeld(hosts, q, n)
  {
    if n > 0 {
      FreedIsLastHeld(hosts, q, n - 1);
      FreesAtLastSharer(hosts, q, n - 1);
    }
  }

  lemma {:induction false} LastHeldAsOften(hosts: seq<Host>, q: nat, n: nat, h: Host)
    requires q >= 1 && n <= |hosts| && IsString(h)
    ensures multiset(LastHeld(hosts, q, n))[h] == LastSharers(hosts, q, n, h)
  {
    if n > 0 {
      LastHeldAsOften(hosts, q, n - 1, h);
      CountOfSnoc(LastHeld(hosts, q, n - 1), hosts[n - 1], h);
    }
  }

  lemma FreedAsOftenAsLastShared(hosts: seq<Host>, q: nat, n: nat, h: Host)
    requires q >= 1 && n <= |hosts| && IsString(h)
    ensures multiset(Cleaned(hosts, q, n).0)[h] == LastSharers(hosts, q, n, h)
  {
    FreedIsLastHeld(hosts, q, n);
    LastHeldAsOften(hosts, q, n, h);
  }

  /** The names that n probes have left in the array. */
  ghost predicate HoldsNames(hosts: seq<Host>, replies: seq<Reply>, q: nat, n: nat)
    requires q >= 1
  {
    && n <= |replies| == |hosts|
    && (forall k :: 0 <= k < n ==> hosts[k] == HostAt(replies, q, k))
    && (forall k :: n <= k < |hosts| ==> hosts[k] == Null)
  }

  /** The names of the first n probes as the replies determine them. */
  function NamesOf(replies: seq<Reply>, q: nat, n: nat): (hosts: seq<Host>)
    requires q >= 1 && n <= |replies|
    ensures HoldsNames(hosts, replies, q, n)
  {
    seq(|replies|, k requires 0 <= k < |replies| => if k < n then HostAt(replies, q, k) else Null)
  }

  /** Two probes that hold the same heap string are in the same row. */
  lemma SharersAreInOneRow(hosts: seq<Host>, replies: seq<Reply>, q: nat, n: nat, i: nat, j: nat)
    requires q >= 1 && HoldsNames(hosts, replies, q, n)
    requires i < |hosts| && j < |hosts| && hosts[i] == hosts[j] && hosts[i].Heap?
    ensures Row(i, q) == Row(j, q)
  {
    HostIsAllocatedBefore(replies, q, i);
    HostIsAllocatedBefore(replies, q, j);
    var a := hosts[i].id;
    SharersAreARun(replies, q, i, a);
    SharersAreARun(replies, q, j, a);
  }

  /** At most one probe is the last to hold a heap string. */
  lemma {:induction false} LastSharersOfHeap(hosts: seq<Host>, replies: seq<Reply>, q: nat, n: nat, m: nat, h: Host)
    requires q >= 1 && HoldsNames(hosts, replies, q, n) && m <= |hosts| && h.Heap?
    ensures LastSharers(hosts, q, m, h)
         == if exists k :: 0 <= k < m && hosts[k] == h && LastSharer(hosts, q, k) then 1 else 0
    decreases m
  {
    if m > 0 {
      LastSharersOfHeap(hosts, replies, q, n, m - 1, h);
      if hosts[m - 1] == h && LastSharer(hosts, q, m - 1) {
        forall k | 0 <= k < m - 1 && hosts[k] == h
          ensures !LastSharer(hosts, q, k)
        {
          SharersAreInOneRow(hosts, replies, q, n, k, m - 1);
        }
      }
    }
  }

  /** The cleanup up to the final probe frees every heap string at most once,
      exactly if the last probe that shares it is not behind the final one, and
      leaves no probe that points to a freed string. */
  lemma HeapStringsAreFreedOnce(hosts: seq<Host>, replies: seq<Reply>, q: nat, n: nat, m: nat, a: nat)
    requires q >= 1 && HoldsNames(hosts, replies, q, n) && m <= n
    ensures var (freed, left) := Cleaned(hosts, q, m);
      && multiset(freed)[Heap(a)] <= 1
      && (Heap(a) in freed <==>
            (exists k :: 0 <= k < m && hosts[k] == Heap(a))
            && forall k :: m <= k < n ==> hosts[k] != Heap(a))
      && (Heap(a) in freed ==> Heap(a) !in left)
  {
    FreedAsOftenAsLastShared(hosts, q, m, Heap(a));
    LastSharersOfHeap(hosts, replies, q, n, m, Heap(a));
    CleanedHosts(hosts, q, m);
    if (exists k :: 0 <= k < m && hosts[k] == Heap(a)) && forall k :: m <= k < n ==> hosts[k] != Heap(a) {
      var k := LastHolder(hosts, Heap(a), m);
      assert LastSharer(hosts, q, k);
    }
    if exists k :: 0 <= k < m && hosts[k] == Heap(a) && LastSharer(hosts, q, k) {
      var k :| 0 <= k < m && hosts[k] == Heap(a) && LastSharer(hosts, q, k);
      forall j | m <= j < n
        ensures hosts[j] != Heap(a)
      {
        if hosts[j] == Heap(a) {
          SharersAreInOneRow(hosts, replies, q, n, k, j);
        }
      }
    }
  }

  lemma {:induction false} LastHolder(hosts: seq<Host>, h: Host, m: nat) returns (k: nat)
    requires m <= |hosts| && exists i :: 0 <= i < m && hosts[i] == h
    ensures k < m && hosts[k] == h && forall i :: k < i < m ==> hosts[i] != h
    decreases m
  {
    if hosts[m - 1] == h {
      k := m - 1;
    } else {
      k := LastHolder(hosts, h, m - 1);
    }
  }

  lemma {:induction false} SomeLastSharer(hosts: seq<Host>, q: nat, m: nat, h: Host)
    requires q >= 1 && m <= |hosts|
    ensures LastSharers(hosts, q, m, h) > 0 <==> exists k :: 0 <= k < m && hosts[k] == h && LastSharer(hosts, q, k)
    decreases m
  {
    if m > 0 {
      SomeLastSharer(hosts, q, m - 1, h);
    }
  }

  /** One of the first m probes is the last in its row with a reply that comes
      from an address without family. */
  ghost predicate NowhereEndsIn(replies: seq<Reply>, q: nat, m: nat, n: nat)
    requires q >= 1 && m <= n <= |replies|
  {
    exists k :: 0 <= k < m && FromNowhere(replies[k])
      && forall j {:trigger replies[j]} :: k < j < n && Row(j, q) == Row(k, q) ==> !FromNowhere(replies[j])
  }

  /** When a static string is passed to free(). */
  lemma StaticStringIsFreedIff(hosts: seq<Host>, replies: seq<Reply>, q: nat, n: nat, m: nat)
    requires q >= 1 && HoldsNames(hosts, replies, q, n) && m <= n
    ensures BadFamily in Cleaned(hosts, q, m).0 <==> NowhereEndsIn(replies, q, m, n)
  {
    FreedAsOftenAsLastShared(hosts, q, m, BadFamily);
    SomeLastSharer(hosts, q, m, BadFamily);
    forall k | 0 <= k < n
      ensures hosts[k] == BadFamily <==> FromNowhere(replies[k])
    {
      NameKinds(replies, q, k);
    }
  }

  /** And it is passed there when the first probe of a row of two ends with an
      error of the socket and the target answers the second. */
  lemma StaticStringCanBeFreed(replies: seq<Reply>, sender: Addr)
    requires replies == [LocalError, Answer(sender)] && sender.family != 0
    ensures StopsAt(replies, 2, 0, 2) && IsLeastTerminal(replies, 0, 2, 1)
    ensures BadFamily in Cleaned(NamesOf(replies, 2, 2), 2, 2).0
  {
    assert EndsTheWay(replies[1]);
    assert FromNowhere(replies[0]) && !FromNowhere(replies[1]);
    StaticStringIsFreedIff(NamesOf(replies, 2, 2), replies, 2, 2, 2);
  }

  // -------------------------------------------------- the flat and nested loop

  /** A final probe is in the last row probed. */
  lemma TerminalIsInLastRow(replies: seq<Reply>, q: nat, lo: nat, n: nat, final: nat)
    requires StopsAt(replies, q, lo, n) && lo <= final < n && EndsTheWay(replies[final])
    ensures Row(final, q) == Row(n - 1, q)
  {
    var row := Row(n - 1, q);
    InRowIff(n - 1, q, row);
    InRowIff(final, q, row);
    PartsOf(row, q, 0);
    assert final < First(row, q) ==> AnyTerminal(replies, lo, First(row, q));
  }

  /** Both programs find a final probe or none; the final probes are in the last
      row, that of the flat program is the first terminal probe of all and that
      of the nested one the last. */
  ghost predicate FinalsAgree(replies: seq<Reply>, q: nat, n: nat, flat: int, nested: int)
    requires q >= 1 && n <= |replies|
  {
    && (flat < 0 <==> nested < 0)
    && (flat >= 0 ==>
          && flat <= nested < n && Row(flat, q) == Row(nested, q) == Row(n - 1, q)
          && EndsTheWay(replies[flat]) && !AnyTerminal(replies, 0, flat)
          && EndsTheWay(replies[nested]) && !AnyTerminal(replies, nested + 1, n))
  }

  /** Probing row by row from TTL 1 and probing with one counter send the same
      packets and stop after the same probe, with final probes in one row. */
  lemma FlatRefinesNested(replies: seq<Reply>, q: nat, n: nat, m: nat, flat: int, nested: int)
    requires StopsAt(replies, q, 0, n) && StopsAt(replies, q, 0, m)
    requires IsLeastTerminal(replies, 0, n, flat) && IsGreatestTerminal(replies, 0, m, nested)
    ensures n == m && Packets(q, 0, n) == Packets(q, 0, m)
    ensures FinalsAgree(replies, q, n, flat, nested)
  {
    StopIsUnique(replies, q, 0, n, m);
    if flat >= 0 {
      assert AnyTerminal(replies, 0, n);
      TerminalIsInLastRow(replies, q, 0, n, flat);
      TerminalIsInLastRow(replies, q, 0, n, nested);
    }
  }

  /** The flat loop ignores the first TTL asked for, so it sends what the nested
      loop does exactly if that is 1 or there is nothing to send. */
  lemma SamePacketsIff(replies: seq<Reply>, q: nat, firstTtl: nat, n: nat, m: nat)
    requires firstTtl >= 1
    requires StopsAt(replies, q, 0, n) && StopsAt(replies, q, First(firstTtl - 1, q), m)
    ensures m >= First(firstTtl - 1, q)
    ensures Packets(q, 0, n) == Packets(q, First(firstTtl - 1, q), m) <==> firstTtl == 1 || replies == []
  {
    FirstGrows(0, firstTtl - 1, q);
    SamePacketsFrom(replies, q, First(firstTtl - 1, q), n, m);
  }

  lemma SamePacketsFrom(replies: seq<Reply>, q: nat, lo: nat, n: nat, m: nat)
    requires StopsAt(replies, q, 0, n) && StopsAt(replies, q, lo, m)
    ensures Packets(q, 0, n) == Packets(q, lo, m) <==> lo == 0 || replies == []
  {
    if lo == 0 {
      StopIsUnique(replies, q, 0, n, m);
    } else if replies != [] {
      PacketAt(q, 0, n, 0);
      if m > lo {
        PacketAt(q, lo, m, 0);
      }
    }
  }

  lemma {:induction false} PacketsConcat(q: nat, lo: nat, mid: nat, n: nat)
    requires q >= 1 && lo <= mid <= n
    ensures Packets(q, lo, mid) + Packets(q, mid, n) == Packets(q, lo, n)
    decreases n
  {
    if mid < n {
      PacketsConcat(q, lo, mid, n - 1);
    }
  }

  lemma NoTerminalAtRowsBefore(replies: seq<Reply>, q: nat, lo: nat, start: nat, n: nat)
    requires q >= 1 && Place(start, q) == 0 && start <= n <= start + q && n <= |replies|
    requires !AnyTerminal(replies, lo, start)
    ensures forall m :: lo <= m < n && Place(m, q) == 0 ==> !AnyTerminal(replies, lo, m)
  {
    forall m | lo <= m < n && Place(m, q) == 0
      ensures !AnyTerminal(replies, lo, m)
    {
      if m > start {
        Parts(start, q);
        PartsOf(Row(start, q), q, m - start);
      }
    }
  }

  lemma SameGreatestTerminal(replies: seq<Reply>, lo: nat, start: nat, n: nat, final: int)
    requires lo <= start <= n <= |replies| && !AnyTerminal(replies, lo, start)
    ensures IsGreatestTerminal(replies, lo, n, final) <==> IsGreatestTerminal(replies, start, n, final)
  {
  }

  /** Rows without a terminal reply, and then one more row. */
  lemma EndOfRow(replies: seq<Reply>, q: nat, lo: nat, start: nat, n: nat, final: int)
    requires q >= 1 && Place(lo, q) == 0 && Place(start, q) == 0 && Place(|replies|, q) == 0
    requires lo <= start < n <= start + q && n <= |replies|
    requires AllSent(replies, lo, start) && !AnyTerminal(replies, lo, start)
    requires AllSent(replies, start, n - 1) && (replies[n - 1] != SendFailed ==> Place(n, q) == 0)
    requires IsGreatestTerminal(replies, start, n, final)
    ensures replies[n - 1] == SendFailed || n == |replies| || final >= 0
      ==> StopsAt(replies, q, lo, n)
    ensures replies[n - 1] != SendFailed ==> AllSent(replies, lo, n)
  {
    NoTerminalAtRowsBefore(replies, q, lo, start, n);
  }

  lemma GreatestTerminalStep(replies: seq<Reply>, start: nat, n: nat, final: int)
    requires start <= n < |replies| && IsGreatestTerminal(replies, start, n, final)
    ensures IsGreatestTerminal(replies, start, n + 1, if EndsTheWay(replies[n]) then n else final)
  {
  }

  /** One row of the nested loop: q probes with the same TTL. */
  method ProbeRow(replies: seq<Reply>, q: nat, ttl: nat)
    returns (sent: seq<(nat, int)>, finalProbe: int, aborted: bool, ghost n: nat)
    requires q >= 1 && ttl >= 1 && First(ttl - 1, q) + q <= |replies|
    ensures First(ttl - 1, q) < n <= First(ttl - 1, q) + q
    ensures sent == Packets(q, First(ttl - 1, q), n)
    ensures AllSent(replies, First(ttl - 1, q), n - 1)
    ensures aborted <==> replies[n - 1] == SendFailed
    ensures !aborted ==> n == First(ttl - 1, q) + q
    ensures IsGreatestTerminal(replies, First(ttl - 1, q), n, finalProbe)
  {
    sent, finalProbe, aborted := [], -1, false;
    ghost var start := First(ttl - 1, q);
    n := start;
    var probe := 0;
    while probe < q
      invariant 0 <= probe <= q && n == start + probe
      invariant sent == Packets(q, start, n)
      invariant AllSent(replies, start, n)
      invariant IsGreatestTerminal(replies, start, n, finalProbe)
    {
      IsProduct(ttl - 1, q);
      var pn := (ttl - 1) * q + probe;
      assert pn == n;
      PartsOf(ttl - 1, q, probe);
      GreatestTerminalStep(replies, start, pn, finalProbe);
      sent := sent + [(pn, ttl)];
      n := n + 1;
      if replies[pn] == SendFailed {
        aborted := true;
        return;
      }
      TerminalIff(replies[pn]);
      if Terminal(replies[pn]) {
        finalProbe := pn;
      }
      probe := probe + 1;
    }
  }

  lemma RowOfTtl(q: nat, ttl: nat, maxTtl: nat)
    requires q >= 1 && 1 <= ttl <= maxTtl
    ensures First(ttl - 1, q) + q == First(ttl, q) <= First(maxTtl, q)
    ensures ttl == maxTtl <==> First(ttl, q) == First(maxTtl, q)
    ensures Place(First(ttl - 1, q), q) == Place(First(ttl, q), q) == Place(First(maxTtl, q), q) == 0
  {
    FirstGrows(ttl, maxTtl, q);
    PartsOf(ttl - 1, q, 0);
    PartsOf(ttl, q, 0);
    PartsOf(maxTtl, q, 0);
  }

  lemma NothingToSend(replies: seq<Reply>, q: nat, row: nat, rows: nat)
    requires q >= 1 && rows <= row && |replies| == First(rows, q)
    ensures StopsAt(replies, q, First(row, q), First(row, q))
  {
    FirstGrows(rows, row, q);
    PartsOf(row, q, 0);
    PartsOf(rows, q, 0);
  }

  /** Probes row by row, from the first TTL to the last. */
  method NestedTraceroute(replies: seq<Reply>, q: nat, firstTtl: nat, maxTtl: nat)
    returns (sent: seq<(nat, int)>, finalProbe: int, aborted: bool, ghost n: nat)
    requires q >= 1 && firstTtl >= 1 && |replies| == First(maxTtl, q)
    ensures StopsAt(replies, q, First(firstTtl - 1, q), n)
    ensures sent == Packets(q, First(firstTtl - 1, q), n)
    ensures aborted <==> Aborted(replies, First(firstTtl - 1, q), n)
    ensures firstTtl <= maxTtl
      ==> n <= |replies| && IsGreatestTerminal(replies, First(firstTtl - 1, q), n, finalProbe)
    ensures firstTtl > maxTtl ==> sent == [] && finalProbe == -1
  {
    ghost var lo := First(firstTtl - 1, q);
    sent, finalProbe, aborted := [], -1, false;
    n := lo;
    if firstTtl > maxTtl {
      NothingToSend(replies, q, firstTtl - 1, maxTtl);
      return;
    }
    RowOfTtl(q, firstTtl, maxTtl);
    var ttl := firstTtl;
    while ttl <= maxTtl
      invariant firstTtl <= ttl <= maxTtl + 1
      invariant lo <= n == First(ttl - 1, q) <= |replies|
      invariant !aborted && finalProbe == -1 && sent == Packets(q, lo, n)
      invariant AllSent(replies, lo, n) && !AnyTerminal(replies, lo, n)
      invariant ttl > maxTtl ==> StopsAt(replies, q, lo, n) && lo < n && replies[n - 1] != SendFailed
    {
      ghost var start := n;
      RowOfTtl(q, ttl, maxTtl);
      var row: seq<(nat, int)>;
      row, finalProbe, aborted, n := ProbeRow(replies, q, ttl);
      PacketsConcat(q, lo, start, n);
      sent := sent + row;
      EndOfRow(replies, q, lo, start, n, finalProbe);
      SameGreatestTerminal(replies, lo, start, n, finalProbe);
      if aborted || finalProbe >= 0 {
        return;
      }
      ttl := ttl + 1;
    }
  }

  // ----------------------------------------------------------- the flat loop

  /** What is known of a probe once it has been sent and answered. */
  function ProbeAt(replies: seq<Reply>, q: nat, pn: nat): Probe
    requires q >= 1 && pn < |replies|
  {
    Probe(AddrOf(replies[pn]), HostAt(replies, q, pn), ResultOf(replies[pn]))
  }

  ghost predicate Filled(probes: seq<Probe>, replies: seq<Reply>, q: nat, n: nat) {
    && q >= 1 && n <= |replies| == |probes|
    && (forall k :: 0 <= k < n ==> probes[k] == ProbeAt(replies, q, k))
    && (forall k :: n <= k < |probes| ==> probes[k] == BLANK)
  }

  function HostsOf(probes: seq<Probe>): (hosts: seq<Host>)
    ensures |hosts| == |probes| && forall k :: 0 <= k < |probes| ==> hosts[k] == probes[k].host
  {
    seq(|probes|, k requires 0 <= k < |probes| => probes[k].host)
  }

  /** The flat loop has no reason to stop before probe n. */
  ghost predicate GoesOn(replies: seq<Reply>, q: nat, n: nat) {
    && q >= 1 && n <= |replies| && AllSent(replies, 0, n)
    && forall m :: 0 <= m <= n && Place(m, q) == 0 ==> !AnyTerminal(replies, 0, m)
  }

  lemma AfterProbe(replies: seq<Reply>, q: nat, n: nat, final: int)
    requires GoesOn(replies, q, n) && n < |replies| && Place(|replies|, q) == 0
    requires IsLeastTerminal(replies, 0, n + 1, final)
    ensures var rowEnds := Place(n, q) == q - 1;
      && ((replies[n] == SendFailed || (final >= 0 && rowEnds) || n + 1 == |replies|) ==> StopsAt(replies, q, 0, n + 1))
      && (replies[n] != SendFailed && !(final >= 0 && rowEnds) ==> GoesOn(replies, q, n + 1))
  {
    NextPlace(n, q);
    assert final >= 0 ==> AnyTerminal(replies, 0, n + 1);
  }

  ghost predicate IsLeastOf(final: int, seen: set<nat>) {
    if final < 0 then final == -1 && seen == {}
    else final in seen && forall k :: k in seen ==> final <= k
  }

  ghost function Terminals(replies: seq<Reply>, n: nat): set<nat>
    requires n <= |replies|
  {
    set k | 0 <= k < n && EndsTheWay(replies[k])
  }

  lemma LeastOfTerminals(replies: seq<Reply>, n: nat, final: int)
    requires n <= |replies|
    ensures IsLeastTerminal(replies, 0, n, final) <==> IsLeastOf(final, Terminals(replies, n))
  {
    if final < 0 && AnyTerminal(replies, 0, n) {
      var k :| 0 <= k < n && EndsTheWay(replies[k]);
      assert k in Terminals(replies, n);
    }
    assert forall k :: 0 <= k < n && EndsTheWay(replies[k]) ==> k in Terminals(replies, n);
  }

  ghost predicate HeldIn(replies: seq<Reply>, q: nat, lo: nat, hi: nat, h: Host)
    requires q >= 1 && hi <= |replies|
  {
    exists k :: lo <= k < hi && HostAt(replies, q, k) == h
  }

  /** Of n probes the first m are cleaned: a heap string is freed at most once,
      and exactly if its last sharer is among them. */
  ghost predicate FreedRightly(replies: seq<Reply>, q: nat, m: nat, n: nat, freed: seq<Host>)
    requires q >= 1 && m <= n <= |replies|
  {
    forall a: nat ::
      && multiset(freed)[Heap(a)] <= 1
      && (Heap(a) in freed <==> HeldIn(replies, q, 0, m, Heap(a)) && !HeldIn(replies, q, m, n, Heap(a)))
  }

  ghost predicate NobodyHoldsAny(hosts: seq<Host>, freed: seq<Host>) {
    forall a: nat :: Heap(a) in freed ==> Heap(a) !in hosts
  }

  lemma FilledHosts(probes: seq<Probe>, replies: seq<Reply>, q: nat, n: nat)
    requires Filled(probes, replies, q, n)
    ensures HostsOf(probes) == NamesOf(replies, q, n)
  {
  }

  /** What the cleanup of m of the n probes sent comes to: `freed` is passed to
      free() and the names `left` are still held. */
  ghost predicate CleanedUp(replies: seq<Reply>, q: nat, m: nat, n: nat, freed: seq<Host>, left: seq<Host>)
    requires q >= 1 && m <= n <= |replies| == |left|
  {
    && FreedRightly(replies, q, m, n, freed) && NobodyHoldsAny(left, freed)
    && (BadFamily in freed <==> NowhereEndsIn(replies, q, m, n))
    && Null !in freed && Unknown !in freed
    && (forall k :: 0 <= k < m ==> left[k] == if replies[k].Timeout? then Unknown else Null)
    && (forall k :: m <= k < n ==> left[k] == HostAt(replies, q, k))
  }

  lemma CleanupIsRight(replies: seq<Reply>, q: nat, n: nat, m: nat)
    requires q >= 1 && m <= n <= |replies|
    ensures var (freed, left) := Cleaned(NamesOf(replies, q, n), q, m); CleanedUp(replies, q, m, n, freed, left)
  {
    var hosts := NamesOf(replies, q, n);
    StaticStringIsFreedIff(hosts, replies, q, n, m);
    HeapStringsAreFreedRightly(replies, q, n, m);
    CleanedHosts(hosts, q, m);
    OnlyStringsAreFreed(hosts, q, m);
    forall k | 0 <= k < m
      ensures hosts[k].Unknown? <==> replies[k].Timeout?
    {
      NameKinds(replies, q, k);
    }
  }

  lemma {:induction false} OnlyStringsAreFreed(hosts: seq<Host>, q: nat, n: nat)
    requires q >= 1 && n <= |hosts|
    ensures Null !in Cleaned(hosts, q, n).0 && Unknown !in Cleaned(hosts, q, n).0
  {
    if n > 0 {
      OnlyStringsAreFreed(hosts, q, n - 1);
      FreesAtLastSharer(hosts, q, n - 1);
    }
  }

  /** The probes from m on are as they were sent and answered. */
  ghost predicate Untouched(probes: seq<Probe>, replies: seq<Reply>, q: nat, m: nat, n: nat)
    requires q >= 1 && n <= |replies| == |probes|
  {
    forall k :: m <= k < n ==> probes[k] == ProbeAt(replies, q, k)
  }

  ghost predicate SameButHosts(before: seq<Probe>, after: seq<Probe>) {
    |before| == |after| && forall k :: 0 <= k < |after| ==> after[k] == before[k].(host := after[k].host)
  }

  /** The cleanup of the array that n probes have filled. */
  lemma CleanupOfFilled(before: seq<Probe>, after: seq<Probe>, freed: seq<Host>, replies: seq<Reply>, q: nat, n: nat, m: nat)
    requires Filled(before, replies, q, n) && m <= n
    requires (freed, HostsOf(after)) == Cleaned(HostsOf(before), q, m) && SameButHosts(before, after)
    ensures CleanedUp(replies, q, m, n, freed, HostsOf(after))
    ensures Untouched(after, replies, q, m, n)
  {
    FilledHosts(before, replies, q, n);
    CleanupIsRight(replies, q, n, m);
  }

  lemma HeapStringsAreFreedRightly(replies: seq<Reply>, q: nat, n: nat, m: nat)
    requires q >= 1 && m <= n <= |replies|
    ensures var (freed, left) := Cleaned(NamesOf(replies, q, n), q, m);
      FreedRightly(replies, q, m, n, freed) && NobodyHoldsAny(left, freed)
  {
    var hosts := NamesOf(replies, q, n);
    forall a: nat
      ensures multiset(Cleaned(hosts, q, m).0)[Heap(a)] <= 1
      ensures Heap(a) in Cleaned(hosts, q, m).0
        <==> HeldIn(replies, q, 0, m, Heap(a)) && !HeldIn(replies, q, m, n, Heap(a))
      ensures Heap(a) in Cleaned(hosts, q, m).0 ==> Heap(a) !in Cleaned(hosts, q, m).1
    {
      HeapStringsAreFreedOnce(hosts, replies, q, n, m, a);
      assert HeldIn(replies, q, 0, m, Heap(a)) <==> exists k :: 0 <= k < m && hosts[k] == Heap(a);
      assert HeldIn(replies, q, m, n, Heap(a)) <==> exists k :: m <= k < n && hosts[k] == Heap(a);
    }
  }

  /** A row of an array of whole rows. */
  lemma RowFits(pn: nat, q: nat, size: nat)
    requires q >= 1 && Place(size, q) == 0 && pn < size
    ensures var lo := First(Row(pn, q), q);
      lo == pn / q * q <= pn && lo + q == (pn / q + 1) * q <= size
  {
    IsQuotient(pn, q);
    IsProduct(Row(pn, q), q);
    IsProduct(Row(pn, q) + 1, q);
    Parts(pn, q);
    Parts(size, q);
    if Row(size, q) <= Row(pn, q) {
      FirstGrows(Row(size, q), Row(pn, q), q);
    } else {
      FirstGrows(Row(pn, q) + 1, Row(size, q), q);
    }
  }

  /** Routers on the way and silence, up to probe f. */
  ghost predicate OnTheWay(replies: seq<Reply>, f: nat)
    requires f <= |replies|
  {
    forall k :: 0 <= k < f ==>
      replies[k].Timeout? || replies[k].LocalError?
      || (replies[k].Icmp? && replies[k].kind == 11 && replies[k].code == 0)
  }

  /** As long as there is nothing but routers on the way and silence the probing
      of n probes goes on and finds no final probe; the first other message or
      answer is the final probe, and a failed send ends the program. */
  ghost predicate RepliesDecide(replies: seq<Reply>, n: nat, final: int) {
    forall f: nat | f <= |replies| && OnTheWay(replies, f) ::
      && f <= n
      && (f == n ==> final == -1)
      && (f < |replies| && replies[f].Answer? ==> f < n && final == f)
      && (f < |replies| && replies[f].Icmp? && (replies[f].kind != 11 || replies[f].code != 0) ==>
            f < n && final == f)
      && (f < |replies| && replies[f].SendFailed? ==> n == f + 1 && final == -1)
  }

  lemma GoesOnOnTheWay(replies: seq<Reply>, q: nat, n: nat, f: nat)
    requires StopsAt(replies, q, 0, n) && f <= |replies| && OnTheWay(replies, f)
    ensures f <= n && (f == n ==> f == |replies|)
  {
  }

  lemma DecidedAt(replies: seq<Reply>, q: nat, n: nat, final: int, f: nat)
    requires StopsAt(replies, q, 0, n) && IsLeastTerminal(replies, 0, n, final)
    requires f <= |replies| && OnTheWay(replies, f)
    ensures f <= n && (f == n ==> final == -1)
    ensures f < |replies| && EndsTheWay(replies[f]) ==> f < n && final == f
    ensures f < |replies| && replies[f].SendFailed? ==> n == f + 1 && final == -1
  {
    GoesOnOnTheWay(replies, q, n, f);
    if f < |replies| && EndsTheWay(replies[f]) {
      assert AnyTerminal(replies, 0, n);
    }
  }

  lemma ProbingIsDecided(replies: seq<Reply>, q: nat, n: nat, final: int)
    requires StopsAt(replies, q, 0, n) && IsLeastTerminal(replies, 0, n, final)
    ensures RepliesDecide(replies, n, final)
  {
    forall f: nat | f <= |replies| && OnTheWay(replies, f)
      ensures f <= n && (f == n ==> final == -1)
      ensures f < |replies| && EndsTheWay(replies[f]) ==> f < n && final == f
      ensures f < |replies| && replies[f].SendFailed? ==> n == f + 1 && final == -1
    {
      DecidedAt(replies, q, n, final, f);
    }
  }

  class Tracer {
    const q: nat
    const probes: array<Probe>
    var finalProbe: int
    var freed: seq<Host>

    constructor (maxTtl: nat, q: nat)
      requires q >= 1
      ensures this.q == q && fresh(probes) && probes.Length == maxTtl * q
      ensures forall k :: 0 <= k < probes.Length ==> probes[k] == BLANK
      ensures finalProbe == -1 && freed == []
    {
      this.q := q;
      probes := new Probe[maxTtl * q](_ => BLANK);
      finalProbe, freed := -1, [];
    }

    /** Keeps the least of all probes seen, in whatever order they come. */
    method SetFinalProbe(pn: nat, ghost seen: set<nat>)
      requires IsLeastOf(finalProbe, seen)
      modifies this`finalProbe
      ensures IsLeastOf(finalProbe, seen + {pn})
    {
      if finalProbe < 0 || pn < finalProbe {
        finalProbe := pn;
      }
    }

    method DoOneProbe(pn: nat, ghost replies: seq<Reply>, reply: Reply)
      requires Filled(probes[..], replies, q, pn)
      requires pn < |replies| && reply == replies[pn]
      requires IsLeastTerminal(replies, 0, pn, finalProbe)
      modifies this`finalProbe, probes
      ensures Filled(probes[..], replies, q, pn + 1)
      ensures IsLeastTerminal(replies, 0, pn + 1, finalProbe)
      ensures probes[pn].result == ErrSend <==> reply.SendFailed?
      ensures probes[pn].result == ErrTimeout <==> reply.Timeout?
      ensures probes[pn].result == ErrRecv <==>
        reply.Icmp? && (reply.kind, reply.code) != (11, 0) && (reply.kind, reply.code) != (3, 3)
    {
      if reply.SendFailed? {
        probes[pn] := probes[pn].(result := ErrSend);
      } else if reply.Timeout? {
        probes[pn] := probes[pn].(result := ErrTimeout, host := Unknown);
      } else {
        TerminalIff(reply);
        if Terminal(reply) {
          LeastOfTerminals(replies, pn, finalProbe);
          SetFinalProbe(pn, Terminals(replies, pn));
          assert Terminals(replies, pn + 1) == Terminals(replies, pn) + {pn};
          LeastOfTerminals(replies, pn + 1, finalProbe);
        }
        var addr := AddrOf(reply);
        var host;
        IsQuotient(pn, q);
        if pn > 0 {
          SameIpIff(probes[pn - 1].addr, addr);
        }
        if pn % q == 0 || !SameIp(probes[pn - 1].addr, addr) || probes[pn - 1].host == Null {
          host := Resolve(reply, pn);
        } else {
          host := probes[pn - 1].host;
        }
        probes[pn] := Probe(addr, host, if HasErrorText(reply) then ErrRecv else Ok);
      }
    }

    /** Looks for the pointer of probe pn among the other probes of its row. */
    method IsUsedElsewhere(pn: nat) returns (used: bool)
      requires q >= 1 && Place(probes.Length, q) == 0 && pn < probes.Length
      ensures used <==> SharedInRow(HostsOf(probes[..]), q, pn)
    {
      ghost var hosts := HostsOf(probes[..]);
      ghost var lo := First(Row(pn, q), q);
      RowFits(pn, q, probes.Length);
      var k, end := pn / q * q, (pn / q + 1) * q;
      while k < end
        invariant lo <= k <= end == lo + q <= probes.Length
        invariant forall i :: lo <= i < k && i != pn ==> hosts[i] != hosts[pn]
      {
        InRowIff(k, q, Row(pn, q));
        if k != pn && probes[k].host == probes[pn].host {
          assert hosts[k] == hosts[pn];
          return true;
        }
        k := k + 1;
      }
      NotShared(hosts, q, pn);
      return false;
    }

    method FreeMemProbe(pn: nat)
      requires q >= 1 && Place(probes.Length, q) == 0 && pn < probes.Length
      modifies this`freed, probes
      ensures freed == old(freed) + FreeProbe(old(HostsOf(probes[..])), q, pn).0
      ensures HostsOf(probes[..]) == FreeProbe(old(HostsOf(probes[..])), q, pn).1
      ensures forall k :: 0 <= k < probes.Length ==> probes[k] == old(probes[k]).(host := probes[k].host)
      ensures old(probes[pn].host) == Unknown ==> probes[pn] == old(probes[pn]) && freed == old(freed)
    {
      ghost var hosts := HostsOf(probes[..]);
      if probes[pn].host != Null && probes[pn].host != Unknown {
        var used := IsUsedElsewhere(pn);
        if used {
          probes[pn] := probes[pn].(host := Null);
        }
        if probes[pn].host != Null {
          freed := freed + [probes[pn].host];
          probes[pn] := probes[pn].(host := Null);
        }
        assert HostsOf(probes[..]) == hosts[pn := Null];
      }
    }

    /** One counter for all probes of all rows. */
    method SendProbes(replies: seq<Reply>)
      returns (sent: seq<(nat, int)>, aborted: bool, ghost n: nat)
      requires q >= 1 && Place(|replies|, q) == 0
      requires Filled(probes[..], replies, q, 0) && finalProbe == -1
      modifies this`finalProbe, probes
      ensures StopsAt(replies, q, 0, n)
      ensures sent == Packets(q, 0, n) && (aborted <==> Aborted(replies, 0, n))
      ensures IsLeastTerminal(replies, 0, n, finalProbe)
      ensures Filled(probes[..], replies, q, n)
    {
      sent, aborted, n := [], false, 0;
      var pn := 0;
      while pn < probes.Length
        invariant pn == n <= |replies| == probes.Length && sent == Packets(q, 0, n)
        invariant Filled(probes[..], replies, q, n) && IsLeastTerminal(replies, 0, n, finalProbe)
        invariant GoesOn(replies, q, n)
        invariant n == |replies| ==> StopsAt(replies, q, 0, n)
      {
        IsQuotient(pn, q);
        sent := sent + [(pn, Ttl(pn, q))];
        DoOneProbe(pn, replies, replies[pn]);
        n := pn + 1;
        AfterProbe(replies, q, pn, finalProbe);
        if probes[pn].result == ErrSend {
          aborted := true;
          return;
        }
        if finalProbe >= 0 && pn % q == q - 1 {
          break;
        }
        pn := pn + 1;
      }
    }

    /** Passes the strings up to the final probe to free(). */
    method FreeProbes()
      requires q >= 1 && Place(probes.Length, q) == 0 && -1 <= finalProbe < probes.Length && freed == []
      modifies this`freed, probes
      ensures (freed, HostsOf(probes[..])) == Cleaned(HostsOf(old(probes[..])), q, finalProbe + 1)
      ensures SameButHosts(old(probes[..]), probes[..])
    {
      ghost var hosts, before := HostsOf(probes[..]), probes[..];
      var pn := 0;
      while pn <= finalProbe
        invariant 0 <= pn <= finalProbe + 1 && |hosts| == probes.Length
        invariant freed == Cleaned(hosts, q, pn).0 && HostsOf(probes[..]) == Cleaned(hosts, q, pn).1
        invariant forall k :: 0 <= k < probes.Length ==> probes[k] == before[k].(host := probes[k].host)
      {
        CleanedStep(hosts, q, pn);
        FreeMemProbe(pn);
        pn := pn + 1;
      }
    }

    /** The cleanup of the probes sent, up to the final one. */
    method CleanUp(ghost replies: seq<Reply>, ghost n: nat)
      requires Filled(probes[..], replies, q, n) && Place(|replies|, q) == 0
      requires -1 <= finalProbe < n as int && freed == []
      modifies this`freed, probes
      ensures CleanedUp(replies, q, finalProbe + 1, n, freed, HostsOf(probes[..]))
      ensures Untouched(probes[..], replies, q, finalProbe + 1, n)
    {
      ghost var before := probes[..];
      FreeProbes();
      CleanupOfFilled(before, probes[..], freed, replies, q, n, finalProbe + 1);
    }

    /** A failed send ends the program before the cleanup. */
    method DoTraceroute(replies: seq<Reply>)
      returns (sent: seq<(nat, int)>, aborted: bool, ghost n: nat)
      requires q >= 1 && Place(|replies|, q) == 0
      requires Filled(probes[..], replies, q, 0) && finalProbe == -1 && freed == []
      modifies this, probes
      ensures StopsAt(replies, q, 0, n)
      ensures sent == Packets(q, 0, n) && (aborted <==> Aborted(replies, 0, n))
      ensures IsLeastTerminal(replies, 0, n, finalProbe) && RepliesDecide(replies, n, finalProbe)
      ensures aborted ==> freed == [] && Filled(probes[..], replies, q, n)
      ensures !aborted ==> CleanedUp(replies, q, finalProbe + 1, n, freed, HostsOf(probes[..]))
      ensures !aborted ==> Untouched(probes[..], replies, q, finalProbe + 1, n)
    {
      sent, aborted, n := SendProbes(replies);
      ProbingIsDecided(replies, q, n, finalProbe);
      if !aborted {
        CleanUp(replies, n);
      }
    }
  }

  /** Runs the flat program and then the nested one, both from TTL 1, against the
      same network. They send the same packets, end alike and find a final
      probe in the same row, the last one: the flat program the first terminal
      probe of that row, the nested one its last. */
  method RunBoth(tracer: Tracer, replies: seq<Reply>, maxTtl: nat)
    returns (flat: seq<(nat, int)>, nested: seq<(nat, int)>, flatAborted: bool, nestedAborted: bool, nestedFinal: int)
    requires tracer.q >= 1 && |replies| == First(maxTtl, tracer.q)
    requires Filled(tracer.probes[..], replies, tracer.q, 0) && tracer.finalProbe == -1 && tracer.freed == []
    modifies tracer, tracer.probes
    ensures flat == nested && flatAborted == nestedAborted
    ensures RepliesDecide(replies, |flat|, tracer.finalProbe)
    ensures |flat| <= |replies| && FinalsAgree(replies, tracer.q, |flat|, tracer.finalProbe, nestedFinal)
  {
    ghost var n, m;
    PartsOf(maxTtl, tracer.q, 0);
    flat, flatAborted, n := tracer.DoTraceroute(replies);
    nested, nestedFinal, nestedAborted, m := NestedTraceroute(replies, tracer.q, 1, maxTtl);
    StopIsUnique(replies, tracer.q, 0, n, m);
    PacketsLength(tracer.q, 0, n);
    if maxTtl > 0 {
      FlatRefinesNested(replies, tracer.q, n, m, tracer.finalProbe, nestedFinal);
    }
  }

  lemma {:induction false} PacketsLength(q: nat, lo: nat, n: nat)
    requires q >= 1 && lo <= n
    ensures |Packets(q, lo, n)| == n - lo
    decreases n
  {
    if lo < n {
      PacketsLength(q, lo, n - 1);
    }
  }

  lemma CleanedStep(hosts: seq<Host>, q: nat, n: nat)
    requires q >= 1 && n < |hosts|
    ensures Cleaned(hosts, q, n + 1).0 == Cleaned(hosts, q, n).0 + FreeProbe(Cleaned(hosts, q, n).1, q, n).0
    ensures Cleaned(hosts, q, n + 1).1 == FreeProbe(Cleaned(hosts, q, n).1, q, n).1
  {
  }

  lemma NotShared(hosts: seq<Host>, q: nat, pn: nat)
    requires q >= 1 && pn < |hosts|
    requires var lo := First(Row(pn, q), q);
      forall i :: 0 <= i < |hosts| && lo <= i < lo + q && i != pn ==> hosts[i] != hosts[pn]
    ensures !SharedInRow(hosts, q, pn)
  {
    forall k | 0 <= k < |hosts| && Row(k, q) == Row(pn, q) && k != pn
      ensures hosts[k] != hosts[pn]
    {
      InRowIff(k, q, Row(pn, q));
    }
  }
}
