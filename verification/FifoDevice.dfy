/** The locked bodies of globalfifo_read, _write, _ioctl and _poll on the device's own byte array. */
module FifoDevice {
  import opened Basics
  import opened BoundedQueue
  import opened FifoModel

  const GLOBALFIFO_SIZE: nat := 0x1000

  /** A call either returns or, on a blocking file, has to sleep. */
  datatype Outcome = Returns(ret: Result) | Sleeps

  class GlobalFifo {
    const mem: array<Byte>
    var currentLen: nat

    ghost predicate Valid()
      reads this
    {
      0 < mem.Length && currentLen <= mem.Length
    }

    ghost function Contents(): seq<Byte>
      reads this, mem
      requires Valid()
    {
      mem[..currentLen]
    }

    constructor (size: nat)
      requires size > 0
      ensures Valid() && fresh(mem) && mem.Length == size && Contents() == []
      ensures forall i :: 0 <= i < size ==> mem[i] == 0
    {
      mem := new Byte[size](_ => 0);
      currentLen := 0;
    }

    /** memcpy(mem, mem + count, n), byte by byte in ascending order. */
    method Memcpy(count: nat, n: nat)
      requires count + n <= mem.Length
      modifies mem
      ensures mem[..n] == old(mem[count..count + n])
      ensures mem[n..] == old(mem[n..])
    {
      var i := 0;
      while i < n
        invariant 0 <= i <= n
        invariant forall k :: 0 <= k < i ==> mem[k] == old(mem[k + count])
        invariant forall k :: i <= k < mem.Length ==> mem[k] == old(mem[k])
      {
        mem[i] := mem[i + count];
        i := i + 1;
      }
    }

    /** copy_from_user(mem + at, ...): `bytes` is what arrives, junk included when the copy fails. */
    method CopyIn(at: nat, bytes: seq<Byte>)
      requires at + |bytes| <= mem.Length
      modifies mem
      ensures mem[..] == Overlay(old(mem[..]), at, bytes)
    {
      forall i | 0 <= i < |bytes| {
        mem[at + i] := bytes[i];
      }
      assert mem[..] == Overlay(old(mem[..]), at, bytes);
    }

    method Read(count: nat, nonblock: bool, fault: bool) returns (out: Outcome, user: seq<Byte>)
      requires Valid()
      modifies this, mem
      ensures Valid()
      ensures out.Sleeps? <==> old(Contents()) == [] && !nonblock
      ensures out == Returns(Failed(EAGAIN)) <==> old(Contents()) == [] && nonblock
      ensures out == Returns(Failed(EFAULT)) <==> old(Contents()) != [] && fault && count > 0
      ensures old(Contents()) != [] && !(fault && count > 0) ==>
                (out == Returns(Moved(if count < old(currentLen) then count else old(currentLen))) &&
                 out.ret.n == |user| && user == old(mem[..])[..|user|] &&
                 Apply(mem.Length, old(Contents()), Deq(0, count, user)) == Some(Contents()) &&
                 mem[..] == Shifted(old(mem[..]), old(currentLen), |user|))
      ensures old(Contents()) == [] || (fault && count > 0) ==>
                user == [] && currentLen == old(currentLen) && mem[..] == old(mem[..])
    {
      user := [];
      if currentLen == 0 {
        if nonblock {
          return Returns(Failed(EAGAIN)), user;
        }
        return Sleeps, user;
      }
      var n := count;
      if n > currentLen {
        n := currentLen;
      }
      if fault && n > 0 {
        return Returns(Failed(EFAULT)), user;
      }
      user := mem[..n];
      assert user == mem[..][..n];
      ghost var len := currentLen;
      Memcpy(n, currentLen - n);
      currentLen := currentLen - n;
      assert mem[..] == mem[..len - n] + mem[len - n..];
      assert old(Contents())[..n] == user && old(Contents())[n..] == old(mem[n..len]);
      out := Returns(Moved(n));
    }

    method Write(data: seq<Byte>, nonblock: bool, fault: bool, junk: seq<Byte>) returns (out: Outcome)
      requires Valid()
      requires fault ==> |junk| == Min(|data|, mem.Length - currentLen)
      modifies this, mem
      ensures Valid()
      ensures out.Sleeps? <==> |old(Contents())| == mem.Length && !nonblock
      ensures out == Returns(Failed(EAGAIN)) <==> |old(Contents())| == mem.Length && nonblock
      ensures out == Returns(Failed(EFAULT)) <==> |old(Contents())| < mem.Length && fault && data != []
      ensures |old(Contents())| < mem.Length && !(fault && data != []) ==>
                var room := mem.Length - old(currentLen);
                var n := if |data| < room then |data| else room;
                out == Returns(Moved(n)) &&
                Apply(mem.Length, old(Contents()), Enq(0, data, data[..n])) == Some(Contents()) &&
                mem[..] == Overlay(old(mem[..]), old(currentLen), data[..n])
      ensures |old(Contents())| == mem.Length ==> currentLen == old(currentLen) && mem[..] == old(mem[..])
      ensures |old(Contents())| < mem.Length && fault && data != [] ==>
                Contents() == old(Contents()) && mem[..] == Overlay(old(mem[..]), currentLen, junk)
    {
      if currentLen == mem.Length {
        if nonblock {
          return Returns(Failed(EAGAIN));
        }
        return Sleeps;
      }
      var n := |data|;
      if n > mem.Length - currentLen {
        n := mem.Length - currentLen;
      }
      if fault && n > 0 {
        CopyIn(currentLen, junk);
        assert mem[..currentLen] == mem[..][..currentLen];
        return Returns(Failed(EFAULT));
      }
      CopyIn(currentLen, data[..n]);
      ghost var q := old(Contents());
      assert mem[..currentLen + n] == mem[..][..currentLen] + mem[..][currentLen..currentLen + n];
      assert mem[..][..currentLen] == q;
      currentLen := currentLen + n;
      out := Returns(Moved(n));
    }

    method Ioctl(cmd: nat) returns (ret: Result)
      requires Valid()
      modifies this, mem
      ensures Valid()
      ensures cmd == FIFO_CLEAR ==> ret == Cleared && Contents() == [] && forall i :: 0 <= i < mem.Length ==> mem[i] == 0
      ensures cmd != FIFO_CLEAR ==> ret == Failed(EINVAL) && currentLen == old(currentLen) && mem[..] == old(mem[..])
    {
      if cmd != FIFO_CLEAR {
        return Failed(EINVAL);
      }
      currentLen := 0;
      forall i | 0 <= i < mem.Length {
        mem[i] := 0;
      }
      return Cleared;
    }

    method Poll() returns (ret: Result)
      requires Valid()
      ensures ret.Ready? && Apply(mem.Length, Contents(), Mask(0, ret.readable, ret.writable)) == Some(Contents())
      ensures ret.readable || ret.writable
    {
      ret := Ready(currentLen != 0, currentLen != mem.Length);
    }
  }

  // ----------------------------------------------- memcpy on overlapping regions

  predicate Within(i: int, at: nat, n: nat) { at <= i < at + n }

  /** For a shift by `count` of the `n` bytes left, memcpy's regions are disjoint exactly when n <= count or n == 0. */
  lemma OverlapFree(count: nat, n: nat)
    ensures (forall i :: !(Within(i, 0, n) && Within(i, count, n))) <==> n <= count || n == 0
  {
    assert Within(count, 0, n) && Within(count, count, n) ==> 0 < n && count < n;
    assert 0 < n && count < n ==> Within(count, 0, n) && Within(count, count, n);
  }

  /** The same copy done in descending order. */
  function CopyDown(mem: seq<Byte>, count: nat, n: nat): (r: seq<Byte>)
    requires count + n <= |mem|
    ensures |r| == |mem|
    ensures forall i :: n <= i < |mem| ==> r[i] == mem[i]
    decreases n
  {
    if n == 0 then mem else CopyDown(mem[n - 1 := mem[n - 1 + count]], count, n - 1)
  }

  lemma {:induction false} CopyDownDisjoint(mem: seq<Byte>, count: nat, n: nat, m: nat)
    requires count + n <= |mem| && m <= n && (n <= count || count == 0)
    ensures forall i :: 0 <= i < m ==> CopyDown(mem, count, m)[i] == mem[i + count]
    decreases m
  {
    if m > 0 {
      CopyDownDisjoint(mem[m - 1 := mem[m - 1 + count]], count, n, m - 1);
    }
  }

  lemma {:induction false} Smear(mem: seq<Byte>, count: nat, m: nat, p: nat)
    requires count + m <= |mem| && p < m <= p + count
    ensures CopyDown(mem, count, m)[p] == mem[p + count]
    decreases m
  {
    if p < m - 1 {
      Smear(mem[m - 1 := mem[m - 1 + count]], count, m - 1, p);
    }
  }

  predicate ShiftsDown(mem: seq<Byte>, count: nat) {
    count <= |mem| && CopyDown(mem, count, |mem| - count) == Shifted(mem, |mem|, count)
  }

  lemma OverlapSmears(len: nat, count: nat) returns (mem: seq<Byte>)
    requires 0 < count < len - count
    ensures |mem| == len && !ShiftsDown(mem, count)
  {
    mem := seq(len, i => if i == len - 1 then 1 else 0);
    var n := len - count;
    Smear(mem[n - 1 := 1], count, n - 1, n - 1 - count);
    assert CopyDown(mem, count, n)[n - 1 - count] == 1;
    assert Shifted(mem, len, count)[n - 1 - count] == 0;
  }

  /** memcpy may be carried out in either direction exactly when the regions do not overlap (or coincide). */
  lemma DirectionMatters(len: nat, count: nat)
    requires count <= len
    ensures (forall mem: seq<Byte> :: |mem| == len ==> ShiftsDown(mem, count))
       <==> count == 0 || count >= len - count
  {
    if count == 0 || count >= len - count {
      forall mem: seq<Byte> | |mem| == len
        ensures ShiftsDown(mem, count)
      {
        CopyDownDisjoint(mem, count, len - count, len - count);
      }
    } else {
      var mem := OverlapSmears(len, count);
    }
  }
}
