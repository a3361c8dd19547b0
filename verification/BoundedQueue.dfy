/**
 The sequential object that the globalfifo device promises to be: a byte queue
 that never holds more than `n` bytes.  An `Effect` is one completed operation
 together with everything it observed.
 */
module BoundedQueue {
  import opened Basics

  datatype Effect =
    | Deq(t: nat, want: nat, bytes: seq<Byte>)
    | Enq(t: nat, data: seq<Byte>, bytes: seq<Byte>)
    | Clear(t: nat, dropped: seq<Byte>)
    | Empty(t: nat)
    | Full(t: nat)
    | Mask(t: nat, readable: bool, writable: bool)

  /** The queue after `e`, or None when `e` could not have happened on queue `q`. */
  function Apply(n: nat, q: seq<Byte>, e: Effect): Option<seq<Byte>> {
    match e
    case Deq(_, want, bytes) =>
      if q != [] && bytes == q[..Min(want, |q|)] then Some(q[|bytes|..]) else None
    case Enq(_, data, bytes) =>
      if |q| < n && bytes == data[..Min(|data|, n - |q|)] then Some(q + bytes) else None
    case Clear(_, dropped) => if dropped == q then Some([]) else None
    case Empty(_) => if q == [] then Some(q) else None
    case Full(_) => if |q| == n then Some(q) else None
    case Mask(_, readable, writable) =>
      if readable == (q != []) && writable == (|q| != n) then Some(q) else None
  }

  function Replay(n: nat, q: seq<Byte>, h: seq<Effect>): Option<seq<Byte>>
    decreases h
  {
    if h == [] then Some(q)
    else match Apply(n, q, h[0])
         case None => None
         case Some(q') => Replay(n, q', h[1..])
  }

  /** Bytes an effect puts into the queue. */
  function Taken(e: Effect): seq<Byte> {
    if e.Enq? then e.bytes else []
  }

  /** Bytes an effect takes out of the queue: delivered to a reader or discarded by a clear. */
  function Given(e: Effect): seq<Byte> {
    match e
    case Deq(_, _, bytes) => bytes
    case Clear(_, dropped) => dropped
    case _ => []
  }

  /** Bytes accepted by successful writes, in order. */
  function Accepted(h: seq<Effect>): seq<Byte> {
    if h == [] then [] else Taken(h[0]) + Accepted(h[1..])
  }

  /** Bytes delivered by successful reads and bytes discarded by clears, in order. */
  function Removed(h: seq<Effect>): seq<Byte> {
    if h == [] then [] else Given(h[0]) + Removed(h[1..])
  }

  lemma ApplyBalances(n: nat, q: seq<Byte>, e: Effect)
    requires |q| <= n && Apply(n, q, e).Some?
    ensures |Apply(n, q, e).value| <= n
    ensures q + Taken(e) == Given(e) + Apply(n, q, e).value
  {
  }

  /** No byte is invented, lost, duplicated or reordered, and the bound holds. */
  lemma {:induction false} Conservation(n: nat, q: seq<Byte>, h: seq<Effect>)
    requires |q| <= n && Replay(n, q, h).Some?
    ensures |Replay(n, q, h).value| <= n
    ensures q + Accepted(h) == Removed(h) + Replay(n, q, h).value
    decreases h
  {
    if h == [] {
      assert q + [] == [] + q;
    } else {
      ApplyBalances(n, q, h[0]);
      Conservation(n, Apply(n, q, h[0]).value, h[1..]);
      Chain(q, Taken(h[0]), Accepted(h[1..]), Given(h[0]), Apply(n, q, h[0]).value, Removed(h[1..]),
            Replay(n, q, h).value);
    }
  }

  lemma Chain(q: seq<Byte>, i: seq<Byte>, a: seq<Byte>, o: seq<Byte>, q': seq<Byte>, r: seq<Byte>, z: seq<Byte>)
    requires q + i == o + q' && q' + a == r + z
    ensures q + (i + a) == (o + r) + z
  {
    assert q + (i + a) == (q + i) + a;
    assert (o + q') + a == o + (q' + a);
    assert o + (r + z) == (o + r) + z;
  }

  lemma {:induction false} ReplayConcat(n: nat, q: seq<Byte>, h: seq<Effect>, k: seq<Effect>)
    requires Replay(n, q, h).Some?
    ensures Replay(n, q, h + k) == Replay(n, Replay(n, q, h).value, k)
    decreases h
  {
    if h == [] {
      assert h + k == k;
    } else {
      assert (h + k)[1..] == h[1..] + k;
      ReplayConcat(n, Apply(n, q, h[0]).value, h[1..], k);
    }
  }
}
