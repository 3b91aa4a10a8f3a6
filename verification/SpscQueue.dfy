/**
 The ring queue as a class: a buffer of `cap` slots (a power of two) of which
 one always stays empty, and the two indices `head` (next write) and `tail`
 (next read).  The methods are proved against the bounded FIFO of `Seqs`; the
 interleaving of their single steps is the subject of module RingProtocol.
 */
module SpscQueue {
  import opened Bits
  import opened Seqs

  /** `i` positions after `tail` in a ring of `cap` slots. */
  function Slot(cap: nat, tail: nat, i: nat): nat {
    if tail + i < cap then tail + i else tail + i - cap
  }

  /** How many slots lie between `tail` and `head`. */
  function Count(cap: nat, head: nat, tail: nat): nat
    requires head < cap && tail < cap
  {
    if tail <= head then head - tail else head + cap - tail
  }

  /** The queued elements, oldest first. */
  function Window<T>(buf: seq<T>, head: nat, tail: nat): (w: seq<T>)
    requires head < |buf| && tail < |buf|
    ensures |w| == Count(|buf|, head, tail) < |buf|
  {
    if tail <= head then buf[tail..head] else buf[tail..] + buf[..head]
  }

  lemma WindowAt<T>(buf: seq<T>, head: nat, tail: nat, i: nat)
    requires head < |buf| && tail < |buf| && i < Count(|buf|, head, tail)
    ensures Slot(|buf|, tail, i) < |buf|
    ensures Window(buf, head, tail)[i] == buf[Slot(|buf|, tail, i)]
  {
  }

  class SPSCQueue<T(0)> {
    const cap: nat
    const mask: nat
    const buf: array<T>
    var head: nat
    var tail: nat

    ghost predicate Valid()
      reads this
    {
      && CapacityOk(cap) && mask == cap - 1
      && buf.Length == cap
      && head < cap && tail < cap
    }

    ghost function Contents(): (s: seq<T>)
      requires Valid()
      reads this, buf
    {
      Window(buf[..], head, tail)
    }

    /** The number of elements the queue can hold: one slot stays empty. */
    ghost function Room(): nat
      requires Valid()
      reads this
    {
      cap - 1
    }

    constructor (capacity: nat)
      requires CapacityOk(capacity)
      ensures Valid() && fresh(buf)
      ensures Contents() == [] && Room() == capacity - 1
    {
      cap := capacity;
      mask := capacity - 1;
      buf := new T[capacity];
      head, tail := 0, 0;
    }

    method TryPush(v: T) returns (ok: bool)
      requires Valid()
      modifies this`head, buf
      ensures Valid()
      ensures (Contents(), ok) == FifoPush(old(Contents()), Room(), v)
    {
      MaskedSuccessor(cap, head);
      var next := And(head + 1, mask);
      if next == tail {
        return false;
      }
      buf[head] := v;
      head := next;
      assert Contents() == old(Contents()) + [v];
      ok := true;
    }

    method TryPop() returns (out: Option<T>)
      requires Valid()
      modifies this`tail
      ensures Valid()
      ensures (Contents(), out) == FifoPop(old(Contents()))
    {
      if tail == head {
        return None;
      }
      MaskedSuccessor(cap, tail);
      out := Some(buf[tail]);
      tail := And(tail + 1, mask);
      assert Contents() == old(Contents())[1..];
    }

    /** Appends at most `maxN` elements to `acc`, oldest first. */
    method PopMany(acc: seq<T>, maxN: nat) returns (out: seq<T>, n: nat)
      requires Valid()
      modifies this`tail
      ensures Valid()
      ensures n == (if |old(Contents())| < maxN then |old(Contents())| else maxN)
      ensures out == acc + old(Contents())[..n]
      ensures Contents() == old(Contents())[n..]
    {
      out, n := acc, 0;
      while n < maxN
        invariant Valid() && n <= maxN && n <= |old(Contents())|
        invariant out == acc + old(Contents())[..n]
        invariant Contents() == old(Contents())[n..]
      {
        var e := TryPop();
        if e.None? { break; }
        out := out + [e.value];
        n := n + 1;
      }
    }
  }

  datatype QueueError = AllocationFails | NotPowerOfTwo

  /** Construction as a caller sees it.  The slots are allocated before the
      capacity is tested, so an exception is either that of the allocation, for
      which `alloc` answers, or the refusal of a capacity that is not a power of
      two of at least two. */
  method NewQueue<T(0)>(capacity: nat, alloc: nat -> bool) returns (r: Result<SPSCQueue<T>, QueueError>)
    ensures r.Ok? <==> alloc(capacity) && CapacityOk(capacity)
    ensures r.Err? ==> r.error == if alloc(capacity) then NotPowerOfTwo else AllocationFails
    ensures r.Ok? ==> fresh(r.value) && fresh(r.value.buf) && r.value.Valid()
                      && r.value.Contents() == [] && r.value.Room() == capacity - 1
  {
    if !alloc(capacity) { return Err(AllocationFails); }
    if capacity < 2 || And(capacity, capacity - 1) != 0 { return Err(NotPowerOfTwo); }
    var q := new SPSCQueue<T>(capacity);
    r := Ok(q);
  }
}
