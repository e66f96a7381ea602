/** The circular buffer shared by producers and consumers, against an unbounded
    FIFO queue.

    The waits for a full and for an empty buffer stand in the sources as
    comments only; here they are guards: an append to a full buffer and a take
    from an empty one do not happen.
 */
module SharedRing {

  /** The buffer, the index of the next empty place, the index of the first
      item and the number of items. */
  datatype Ring = Ring(buffer: seq<char>, into: nat, from: nat, count: int)

  ghost predicate Valid(r: Ring) {
    && r.into < |r.buffer| && r.from < |r.buffer| && 0 <= r.count <= |r.buffer|
    && r.into == Wrap(r.from + r.count, |r.buffer|)
  }

  /** An index that runs over the end of the buffer at most once. */
  function Wrap(i: nat, length: nat): int {
    if i < length then i else i - length
  }

  /** The items from the first to the last, around the end of the buffer. */
  ghost function Contents(r: Ring): seq<char>
    requires Valid(r)
  {
    if r.from + r.count <= |r.buffer| then r.buffer[r.from..r.from + r.count]
    else r.buffer[r.from..] + r.buffer[..r.from + r.count - |r.buffer|]
  }

  function Empty(size: nat, val: char): Ring {
    Ring(seq(size, _ => val), 0, 0, 0)
  }

  /** Append as the sources have it, without its wait. */
  function Put(r: Ring, c: char): Ring
    requires r.into < |r.buffer|
  {
    Ring(r.buffer[r.into := c], (r.into + 1) % |r.buffer|, r.from, r.count + 1)
  }

  /** Take as the sources have it, without its wait. */
  function Get(r: Ring): (Ring, char)
    requires r.from < |r.buffer|
  {
    (Ring(r.buffer, r.into, (r.from + 1) % |r.buffer|, r.count - 1), r.buffer[r.from])
  }

  lemma ContentsAt(r: Ring, i: nat)
    requires Valid(r) && i < r.count
    ensures |Contents(r)| == r.count && Contents(r)[i] == r.buffer[Wrap(r.from + i, |r.buffer|)]
  {
  }

  lemma ContentsLength(r: Ring)
    requires Valid(r)
    ensures |Contents(r)| == r.count
  {
  }

  lemma NextIndex(i: nat, length: nat)
    requires i < length
    ensures (i + 1) % length == Wrap(i + 1, length)
  {
    if i + 1 < length {
      assert (i + 1) % length == i + 1;
    }
  }

  /** The guard is exactly what Append needs: with room left the FIFO grows by
      the item, and without it the buffer's bookkeeping is broken. */
  lemma PutIsAppendIff(r: Ring, c: char)
    requires Valid(r)
    ensures Valid(Put(r, c)) <==> r.count < |r.buffer|
    ensures r.count < |r.buffer| ==> Contents(Put(r, c)) == Contents(r) + [c]
  {
    NextIndex(r.into, |r.buffer|);
    if r.count < |r.buffer| {
      var r' := Put(r, c);
      assert |Contents(r')| == r.count + 1;
      forall i | 0 <= i < r.count + 1
        ensures Contents(r')[i] == (Contents(r) + [c])[i]
      {
        ContentsAt(r', i);
        if i < r.count {
          ContentsAt(r, i);
        }
      }
    }
  }

  lemma GetKeepsValidIff(r: Ring)
    requires Valid(r)
    ensures Valid(Get(r).0) <==> r.count > 0
  {
    NextIndex(r.from, |r.buffer|);
  }

  lemma GetShifts(r: Ring, i: nat)
    requires Valid(r) && Valid(Get(r).0) && 0 < i < r.count
    ensures |Contents(r)| == r.count == |Contents(Get(r).0)| + 1
    ensures Contents(Get(r).0)[i - 1] == Contents(r)[i]
  {
    NextIndex(r.from, |r.buffer|);
    ContentsAt(r, i);
    ContentsAt(Get(r).0, i - 1);
  }

  /** And the guard of Take: with an item there the FIFO loses its first. */
  lemma GetIsTakeIff(r: Ring)
    requires Valid(r)
    ensures Valid(Get(r).0) <==> r.count > 0
    ensures r.count > 0 ==> Contents(r) == [Get(r).1] + Contents(Get(r).0)
  {
    GetKeepsValidIff(r);
    if r.count > 0 {
      ContentsAt(r, 0);
      ContentsLength(Get(r).0);
      forall i | 0 < i < r.count
        ensures Contents(r)[i] == Contents(Get(r).0)[i - 1]
      {
        GetShifts(r, i);
      }
    }
  }

  // ------------------------------------------------------- sequences of calls

  datatype Call = Append(c: char) | Take

  /** What a sequence of guarded calls leaves in the buffer and returns. */
  function Serve(r: Ring, calls: seq<Call>): (served: (Ring, seq<char>))
    requires r.into < |r.buffer| && r.from < |r.buffer|
    ensures |served.0.buffer| == |r.buffer|
    ensures served.0.into < |r.buffer| && served.0.from < |r.buffer|
    decreases |calls|
  {
    if calls == [] then (r, [])
    else
      var (before, out) := Serve(r, calls[..|calls| - 1]);
      match calls[|calls| - 1]
      case Append(c) => (if before.count == |before.buffer| then before else Put(before, c), out)
      case Take =>
        if before.count == 0 then (before, out)
        else (Get(before).0, out + [Get(before).1])
  }

  /** The same calls on a FIFO queue of bounded length. */
  ghost function ServeFifo(q: seq<char>, capacity: nat, calls: seq<Call>): (seq<char>, seq<char>)
    decreases |calls|
  {
    if calls == [] then (q, [])
    else
      var (before, out) := ServeFifo(q, capacity, calls[..|calls| - 1]);
      match calls[|calls| - 1]
      case Append(c) => (if |before| == capacity then before else before + [c], out)
      case Take => if before == [] then (before, out) else (before[1..], out + [before[0]])
  }

  /** Every sequence of calls gets from the ring what it gets from the FIFO. */
  lemma {:induction false} RingRefinesFifo(r: Ring, calls: seq<Call>)
    requires Valid(r)
    ensures var (r', out) := Serve(r, calls);
      Valid(r') && (Contents(r'), out) == ServeFifo(Contents(r), |r.buffer|, calls)
    decreases |calls|
  {
    if calls != [] {
      RingRefinesFifo(r, calls[..|calls| - 1]);
      var before := Serve(r, calls[..|calls| - 1]).0;
      assert |Contents(before)| == before.count;
      match calls[|calls| - 1] {
        case Append(c) => PutIsAppendIff(before, c);
        case Take => GetIsTakeIff(before);
      }
    }
  }

  // ---------------------------------------------------------------- the class

  class SharedStorage {
    var buffer: array<char>
    var into: nat
    var from: nat
    var count: int

    ghost function View(): Ring
      reads this, buffer
    {
      Ring(buffer[..], into, from, count)
    }

    constructor (size: nat, val: char)
      requires size >= 1
      ensures fresh(buffer) && View() == Empty(size, val)
      ensures Valid(View()) && Contents(View()) == []
    {
      buffer := new char[size];
      into, from, count := 0, 0, 0;
      new;
      for i := 0 to buffer.Length
        invariant View() == Ring(buffer[..], 0, 0, 0) && buffer.Length == size && fresh(buffer)
        invariant forall k :: 0 <= k < i ==> buffer[k] == val
      {
        buffer[i] := val;
      }
      assert buffer[..] == seq(size, _ => val);
    }

    /** Stores the item behind all others, unless the caller has to wait. */
    method Append(c: char) returns (stored: bool)
      requires Valid(View())
      modifies this`into, this`count, buffer
      ensures Valid(View())
      ensures stored <==> |Contents(old(View()))| < buffer.Length
      ensures Contents(View()) == if stored then Contents(old(View())) + [c] else Contents(old(View()))
      ensures View() == if stored then Put(old(View()), c) else old(View())
    {
      ghost var before := View();
      PutIsAppendIff(before, c);
      ContentsLength(before);
      if count == buffer.Length {
        return false;
      }
      buffer[into] := c;
      into := (into + 1) % buffer.Length;
      count := count + 1;
      stored := true;
      assert View() == Put(before, c);
    }

    /** Removes the item that has been there longest, unless the caller has to wait. */
    method Take() returns (taken: bool, c: char)
      requires Valid(View())
      modifies this`from, this`count
      ensures Valid(View())
      ensures taken <==> Contents(old(View())) != []
      ensures taken ==> Contents(old(View())) == [c] + Contents(View())
      ensures if taken then (View(), c) == Get(old(View())) else View() == old(View())
    {
      ghost var before := View();
      GetIsTakeIff(before);
      ContentsLength(before);
      c := '_';
      if count == 0 {
        return false, c;
      }
      c := buffer[from];
      from := (from + 1) % buffer.Length;
      count := count - 1;
      taken := true;
      assert (View(), c) == Get(before);
    }
  }
}
