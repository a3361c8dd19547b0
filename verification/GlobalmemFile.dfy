/** The globalmem character device as a bounded random-access file, with the integer widths of the source. */
module GlobalmemFile {
  import opened Basics

  const SIZE: nat := 0x1000
  const TWO32: nat := 0x1_0000_0000
  const TWO63: int := 0x8000_0000_0000_0000
  const TWO64: int := 0x1_0000_0000_0000_0000

  const EFAULT: int := 14
  const EINVAL: int := 22

  /** loff_t: a signed 64-bit integer. */
  type Offset = x: int | -TWO63 <= x < TWO63

  /** The value that 64-bit two's complement keeps of `x`. */
  function Wrap64(x: int): Offset {
    (x + TWO63) % TWO64 - TWO63
  }

  lemma InFile(pos: Offset)
    requires 0 <= pos <= SIZE
    ensures pos % TWO64 == pos && Wrap64(pos) == pos
  {
  }

  /** One open file over the device memory. */
  datatype File = File(mem: seq<Byte>, pos: Offset)

  predicate FileOk(f: File) { |f.mem| == SIZE && 0 <= f.pos <= SIZE }

  datatype Outcome = Outcome(f: File, ret: int, bytes: seq<Byte>)

  /** `unsigned int count = size`, then clamped to the space behind `p`; None when `p` is at or past the end. */
  function Count(pos: Offset, size: nat): Option<nat> {
    var p := pos % TWO64;
    if p >= SIZE then None else Some(Min(size % TWO32, SIZE - p))
  }

  function Read(f: File, size: nat, fault: bool): Outcome
    requires |f.mem| == SIZE
  {
    match Count(f.pos, size)
    case None => Outcome(f, 0, [])
    case Some(count) =>
      var p := f.pos % TWO64;
      if fault && count > 0 then Outcome(f, -EFAULT, [])
      else Outcome(f.(pos := Wrap64(f.pos + count)), count, f.mem[p..p + count])
  }

  /** A failing copy leaves `junk` in the destination range and the position alone. */
  function Write(f: File, data: seq<Byte>, fault: bool, junk: seq<Byte>): Outcome
    requires |f.mem| == SIZE
    requires fault && Count(f.pos, |data|).Some? ==> |junk| == Count(f.pos, |data|).value
  {
    match Count(f.pos, |data|)
    case None => Outcome(f, 0, [])
    case Some(count) =>
      var p := f.pos % TWO64;
      if fault && count > 0 then Outcome(f.(mem := Overlay(f.mem, p, junk)), -EFAULT, [])
      else Outcome(File(Overlay(f.mem, p, data[..count]), Wrap64(f.pos + count)), count, [])
  }

  function Llseek(f: File, offset: Offset, orig: int): Outcome {
    if orig == 0 then
      if offset < 0 || offset % TWO32 > SIZE then Outcome(f, -EINVAL, [])
      else Outcome(f.(pos := offset % TWO32), offset % TWO32, [])
    else if orig == 1 then
      var target := Wrap64(f.pos + offset);
      if target > SIZE || target < 0 then Outcome(f, -EINVAL, [])
      else Outcome(f.(pos := target), target, [])
    else Outcome(f, -EINVAL, [])
  }

  // ---------------------------------------------------------------- positions

  /** Everything that can happen to an open file; `Foreign` is any change to the memory through another handle. */
  datatype Op =
    | DoRead(size: nat, fault: bool)
    | DoWrite(data: seq<Byte>, fault: bool, junk: seq<Byte>)
    | DoSeek(offset: Offset, orig: int)
    | Foreign(mem: seq<Byte>)

  predicate CanDo(f: File, op: Op) {
    |f.mem| == SIZE &&
    (op.DoWrite? && op.fault && Count(f.pos, |op.data|).Some? ==> |op.junk| == Count(f.pos, |op.data|).value) &&
    (op.Foreign? ==> |op.mem| == SIZE)
  }

  function Do(f: File, op: Op): File
    requires CanDo(f, op)
  {
    match op
    case DoRead(size, fault) => Read(f, size, fault).f
    case DoWrite(data, fault, junk) => Write(f, data, fault, junk).f
    case DoSeek(offset, orig) => Llseek(f, offset, orig).f
    case Foreign(mem) => f.(mem := mem)
  }

  predicate Legal(f: File, ops: seq<Op>)
    decreases ops
  {
    ops == [] || (CanDo(f, ops[0]) && Legal(Do(f, ops[0]), ops[1..]))
  }

  function Run(f: File, ops: seq<Op>): File
    requires Legal(f, ops)
    decreases ops
  {
    if ops == [] then f else Run(Do(f, ops[0]), ops[1..])
  }

  lemma OpKeepsRange(f: File, op: Op)
    requires FileOk(f) && CanDo(f, op)
    ensures FileOk(Do(f, op))
  {
    InFile(f.pos);
  }

  /** In every run of reads, writes and seeks, failing ones included, the position stays inside the file. */
  lemma {:induction false} PositionInRange(f: File, ops: seq<Op>)
    requires FileOk(f) && Legal(f, ops)
    ensures FileOk(Run(f, ops))
    decreases ops
  {
    if ops != [] {
      OpKeepsRange(f, ops[0]);
      PositionInRange(Do(f, ops[0]), ops[1..]);
    }
  }

  /** Relative seeks: the 64-bit wrap never shows; the call succeeds exactly when the true sum is in the file. */
  lemma RelativeSeekExact(f: File, offset: Offset)
    requires FileOk(f)
    ensures Llseek(f, offset, 1) == if 0 <= f.pos + offset <= SIZE
                                    then Outcome(f.(pos := f.pos + offset), f.pos + offset, [])
                                    else Outcome(f, -EINVAL, [])
  {
    assert f.pos + offset < TWO63 ==> Wrap64(f.pos + offset) == f.pos + offset;
    assert f.pos + offset >= TWO63 ==> Wrap64(f.pos + offset) == f.pos + offset - TWO64;
  }

  /** An absolute seek goes where it was told or fails. */
  predicate SeekHonest(f: File, offset: Offset) {
    var r := Llseek(f, offset, 0);
    (r.ret == offset && r.f.pos == offset <= SIZE) || (r.ret == -EINVAL && r.f == f)
  }

  /** The 32-bit truncation breaks that exactly for offsets of 2^32 and more whose low half lies in the file. */
  lemma AbsoluteSeekExact(f: File, offset: Offset)
    ensures SeekHonest(f, offset) <==> offset < TWO32 || offset % TWO32 > SIZE
  {
    if 0 <= offset < TWO32 { assert offset % TWO32 == offset; }
  }

  /** When an absolute seek fails, and where it goes when it does not; inside the file it goes where it was told. */
  lemma AbsoluteSeekLands(f: File, offset: Offset)
    ensures var r := Llseek(f, offset, 0);
      && (r.ret == -22 && r.f == f <==> offset < 0 || offset % 0x1_0000_0000 > 0x1000)
      && (r.ret != -22 ==> r.ret == r.f.pos == offset % 0x1_0000_0000 && r.f.mem == f.mem)
      && (0 <= offset <= 0x1000 ==> r.ret == r.f.pos == offset && r.f.mem == f.mem)
  {
  }

  /** Every origin but the start and the current position is refused. */
  lemma OtherSeeksFail(f: File, offset: Offset, orig: int)
    requires orig != 0 && orig != 1
    ensures Llseek(f, offset, orig) == Outcome(f, -22, [])
  {
  }

  lemma AbsoluteSeekFails(f: File)
    ensures Llseek(f, TWO32 + 5, 0).ret == 5 && !SeekHonest(f, TWO32 + 5)
  {
    AbsoluteSeekExact(f, TWO32 + 5);
  }

  // ----------------------------------------------------------------- round trip

  function Flatten(chunks: seq<seq<Byte>>): seq<Byte> {
    if chunks == [] then [] else chunks[0] + Flatten(chunks[1..])
  }

  function WriteAll(f: File, chunks: seq<seq<Byte>>): File
    requires |f.mem| == SIZE
    decreases chunks
  {
    if chunks == [] then f else WriteAll(Write(f, chunks[0], false, []).f, chunks[1..])
  }

  /** As many of `n` bytes as fit behind the position. */
  function Fits(f: File, n: nat): nat
    requires FileOk(f)
  {
    if f.pos + n <= SIZE then n else SIZE - f.pos
  }

  /**
   A write without fault stores the first bytes of its data at the position, as many as fit of the 32-bit size it sees,
   moves the position behind them and returns their number; at the end of the file that is none.
   */
  lemma WriteLands(f: File, data: seq<Byte>)
    requires FileOk(f)
    ensures var n := Fits(f, |data| % TWO32);
      && n <= |data|
      && Write(f, data, false, []) == Outcome(File(Overlay(f.mem, f.pos, data[..n]), f.pos + n), n, [])
  {
    var n := Fits(f, |data| % TWO32);
    LowHalf(|data|);
    InFile(f.pos);
    InFile(f.pos + n);
    if f.pos == SIZE { assert Overlay(f.mem, f.pos, data[..0]) == f.mem; }
  }

  lemma LowHalf(n: nat)
    ensures n % TWO32 <= n && (n < TWO32 ==> n % TWO32 == n)
  {
  }

  /** A failing write returns EFAULT, keeps the position and everything outside the range it was to store. */
  lemma WriteFails(f: File, data: seq<Byte>, junk: seq<Byte>)
    requires FileOk(f) && f.pos < SIZE && |data| % TWO32 > 0 && |junk| == Fits(f, |data| % TWO32)
    ensures Write(f, data, true, junk).ret == -14 && Write(f, data, true, junk).f.pos == f.pos
    ensures Write(f, data, true, junk).f.mem == Overlay(f.mem, f.pos, junk)
  {
    InFile(f.pos);
  }

  /** A failing read returns EFAULT and changes nothing. */
  lemma ReadFails(f: File, size: nat)
    requires FileOk(f) && size % TWO32 > 0 && f.pos < SIZE
    ensures Read(f, size, true) == Outcome(f, -14, [])
  {
    InFile(f.pos);
  }

  lemma OverlayTwice(mem: seq<Byte>, at: nat, a: seq<Byte>, b: seq<Byte>)
    requires at + |a| + |b| <= |mem|
    ensures Overlay(Overlay(mem, at, a), at + |a|, b) == Overlay(mem, at, a + b)
  {
  }

  /** Writing what fits of `a` and then what fits of `b` is writing what fits of both. */
  lemma FitsTwice(f: File, a: seq<Byte>, b: seq<Byte>)
    requires FileOk(f)
    ensures var n := Fits(f, |a|);
      var g := File(Overlay(f.mem, f.pos, a[..n]), f.pos + n);
      && n + Fits(g, |b|) == Fits(f, |a + b|)
      && Overlay(g.mem, g.pos, b[..Fits(g, |b|)]) == Overlay(f.mem, f.pos, (a + b)[..Fits(f, |a + b|)])
  {
    var n := Fits(f, |a|);
    var g := File(Overlay(f.mem, f.pos, a[..n]), f.pos + n);
    var k := Fits(g, |b|);
    assert (a + b)[..n + k] == a[..n] + b[..k];
    OverlayTwice(f.mem, f.pos, a[..n], b[..k]);
  }

  predicate Transferable(chunks: seq<seq<Byte>>) { forall i :: 0 <= i < |chunks| ==> |chunks[i]| < TWO32 }

  /** Bytes the writes of the chunks report, one after the other. */
  function Written(f: File, chunks: seq<seq<Byte>>): int
    requires |f.mem| == SIZE
    decreases chunks
  {
    if chunks == [] then 0
    else Write(f, chunks[0], false, []).ret + Written(Write(f, chunks[0], false, []).f, chunks[1..])
  }

  /** Writes in any chunks store the concatenation up to the end of the file, and report exactly what they stored. */
  lemma {:induction false} WriteAllLands(f: File, chunks: seq<seq<Byte>>)
    requires FileOk(f) && Transferable(chunks)
    ensures var n := Fits(f, |Flatten(chunks)|);
      && WriteAll(f, chunks) == File(Overlay(f.mem, f.pos, Flatten(chunks)[..n]), f.pos + n)
      && Written(f, chunks) == n
    decreases chunks
  {
    if chunks == [] {
      assert Overlay(f.mem, f.pos, [][..0]) == f.mem;
    } else {
      LowHalf(|chunks[0]|);
      WriteLands(f, chunks[0]);
      WriteAllLands(Write(f, chunks[0], false, []).f, chunks[1..]);
      FitsTwice(f, chunks[0], Flatten(chunks[1..]));
    }
  }

  /** A read without fault returns 0 exactly at the end of the file or for a size whose low 32 bits are 0. */
  lemma ReadZeroExactly(f: File, size: nat)
    requires FileOk(f)
    ensures Read(f, size, false).ret == 0 <==> f.pos == SIZE || size % TWO32 == 0
  {
    assert f.pos % TWO64 == f.pos;
  }

  /**
   For every request as the kernel passes it on, cut down to `limit` bytes, 0 means the end of the file or nothing
   asked for: the truncation never shows.
   */
  lemma ReadZeroIsEnd(f: File, size: nat, limit: nat)
    requires FileOk(f) && 0 < limit < TWO32
    ensures Read(f, Min(size, limit), false).ret == 0 <==> f.pos == SIZE || size == 0
  {
    ReadZeroExactly(f, Min(size, limit));
    assert Min(size, limit) % TWO32 == Min(size, limit);
  }

  lemma ReadsOn(f: File, size: nat)
    requires FileOk(f) && f.pos < SIZE
    ensures var n := Min(size % TWO32, SIZE - f.pos);
      Read(f, size, false) == Outcome(f.(pos := f.pos + n), n, f.mem[f.pos..f.pos + n])
  {
    assert f.pos % TWO64 == f.pos;
  }

  /** The sizes an application asks for, one read after the other; none truncates to an empty request. */
  type Sizes = nat -> nat

  ghost predicate NonEmpty(sizes: Sizes) { forall i :: sizes(i) % TWO32 != 0 }

  /** read(2) until it returns 0: terminates because every read brings the position closer to the end. */
  function ReadToEof(f: File, sizes: Sizes, i: nat): (r: seq<Byte>)
    requires FileOk(f) && NonEmpty(sizes)
    ensures r == f.mem[f.pos..]
    decreases SIZE - f.pos
  {
    ReadZeroExactly(f, sizes(i));
    var one := Read(f, sizes(i), false);
    if one.ret == 0 then []
    else
      ReadsOn(f, sizes(i));
      one.bytes + ReadToEof(one.f, sizes, i + 1)
  }

  function ReadAll(f: File, sizes: seq<nat>): seq<Byte>
    requires |f.mem| == SIZE
    decreases sizes
  {
    if sizes == [] then []
    else var one := Read(f, sizes[0], false); one.bytes + ReadAll(one.f, sizes[1..])
  }

  function Sum(sizes: seq<nat>): nat {
    if sizes == [] then 0 else sizes[0] + Sum(sizes[1..])
  }

  lemma Abut(mem: seq<Byte>, a: nat, b: nat, c: nat)
    requires a <= b <= c <= |mem|
    ensures mem[a..b] + mem[b..c] == mem[a..c]
  {
  }

  /** The end of what reads of `total` bytes in all deliver from `pos`. */
  function EndOf(pos: nat, total: nat): nat { Min(SIZE, pos + total) }

  lemma ReadSmall(f: File, size: nat)
    requires FileOk(f) && size < TWO32
    ensures Read(f, size, false).f == f.(pos := EndOf(f.pos, size))
    ensures Read(f, size, false).bytes == f.mem[f.pos..EndOf(f.pos, size)]
  {
    if f.pos < SIZE {
      ReadsOn(f, size);
    } else {
      assert f.mem[SIZE..SIZE] == [];
    }
  }

  lemma {:induction false} ReadAllReturns(f: File, sizes: seq<nat>)
    requires FileOk(f) && forall i :: 0 <= i < |sizes| ==> sizes[i] < TWO32
    ensures ReadAll(f, sizes) == f.mem[f.pos..EndOf(f.pos, Sum(sizes))]
    decreases sizes
  {
    if sizes == [] {
      assert f.mem[f.pos..f.pos] == [];
    } else {
      var mid := EndOf(f.pos, sizes[0]);
      ReadSmall(f, sizes[0]);
      ReadAllReturns(f.(pos := mid), sizes[1..]);
      assert EndOf(mid, Sum(sizes[1..])) == EndOf(f.pos, Sum(sizes));
      Abut(f.mem, f.pos, mid, EndOf(f.pos, Sum(sizes)));
    }
  }

  /**
   Round trip from any place in the file: seek to `k`, write a byte string in any chunks, seek back to `k` and read, in
   reads of any sizes that add up to its length; what comes back is the string, cut off at the end of the file.  Read to
   the end of the file it comes back followed by what lay behind it.
   */
  lemma RoundTrip(f: File, k: Offset, chunks: seq<seq<Byte>>, sizes: seq<nat>, more: Sizes)
    requires FileOk(f) && 0 <= k <= SIZE && Transferable(chunks)
    requires Sum(sizes) == |Flatten(chunks)| && (forall i :: 0 <= i < |sizes| ==> sizes[i] < TWO32) && NonEmpty(more)
    ensures var n := if |Flatten(chunks)| < SIZE - k then |Flatten(chunks)| else SIZE - k;
      var g := Llseek(WriteAll(Llseek(f, k, 0).f, chunks), k, 0).f;
      && FileOk(g)
      && ReadAll(g, sizes) == Flatten(chunks)[..n]
      && ReadToEof(g, more, 0) == Flatten(chunks)[..n] + f.mem[k + n..]
  {
    var all := Flatten(chunks);
    var n := if |all| < SIZE - k then |all| else SIZE - k;
    ThereAndBack(f, k, chunks);
    ReadAllReturns(Llseek(WriteAll(Llseek(f, k, 0).f, chunks), k, 0).f, sizes);
    LaidOver(f.mem, k, all[..n]);
  }

  /** Seek, write, seek back: the bytes that fit lie at `k`, and so does the position. */
  lemma ThereAndBack(f: File, k: Offset, chunks: seq<seq<Byte>>)
    requires FileOk(f) && 0 <= k <= SIZE && Transferable(chunks)
    ensures var n := if |Flatten(chunks)| < SIZE - k then |Flatten(chunks)| else SIZE - k;
      Llseek(WriteAll(Llseek(f, k, 0).f, chunks), k, 0).f == File(Overlay(f.mem, k, Flatten(chunks)[..n]), k)
  {
    var at := Llseek(f, k, 0).f;
    AbsoluteSeekLands(f, k);
    WriteAllLands(at, chunks);
    AbsoluteSeekLands(WriteAll(at, chunks), k);
  }

  lemma LaidOver(mem: seq<Byte>, at: nat, piece: seq<Byte>)
    requires at + |piece| <= |mem|
    ensures Overlay(mem, at, piece)[at..at + |piece|] == piece
    ensures Overlay(mem, at, piece)[at..] == piece + mem[at + |piece|..]
  {
  }

  // ---------------------------------------------------------------- the device

  /** The driver's own memory and file position. */
  class Globalmem {
    const mem: array<Byte>
    var fPos: Offset

    ghost predicate Valid()
      reads this
    {
      mem.Length == SIZE && 0 <= fPos <= SIZE
    }

    ghost function State(): File
      reads this, mem
    {
      File(mem[..], fPos)
    }

    constructor ()
      ensures Valid() && fresh(mem) && fPos == 0
    {
      mem := new Byte[SIZE](_ => 0);
      fPos := 0;
    }

    method ReadFrom(size: nat, fault: bool) returns (ret: int, bytes: seq<Byte>)
      requires Valid()
      modifies this`fPos
      ensures Valid() && Outcome(State(), ret, bytes) == Read(old(State()), size, fault)
    {
      InFile(fPos);
      var p := fPos % TWO64;
      var count := size % TWO32;
      bytes := [];
      if p >= SIZE {
        return 0, bytes;
      }
      if count > SIZE - p {
        count := SIZE - p;
      }
      if fault && count > 0 {
        ret := -EFAULT;
      } else {
        bytes := mem[p..p + count];
        assert mem[..][p..p + count] == bytes;
        InFile(fPos + count);
        fPos := fPos + count;
        ret := count;
      }
    }

    method WriteTo(data: seq<Byte>, fault: bool, junk: seq<Byte>) returns (ret: int)
      requires Valid()
      requires fault && Count(fPos, |data|).Some? ==> |junk| == Count(fPos, |data|).value
      modifies this`fPos, mem
      ensures Valid()
      ensures Outcome(State(), ret, []) == Write(old(State()), data, fault, junk)
    {
      InFile(fPos);
      var p := fPos % TWO64;
      var count := |data| % TWO32;
      if p >= SIZE {
        return 0;
      }
      if count > SIZE - p {
        count := SIZE - p;
      }
      if fault && count > 0 {
        CopyIn(p, junk);
        ret := -EFAULT;
      } else {
        CopyIn(p, data[..count]);
        InFile(fPos + count);
        fPos := fPos + count;
        ret := count;
      }
    }

    method CopyIn(at: nat, bytes: seq<Byte>)
      requires at + |bytes| <= mem.Length
      modifies mem
      ensures mem[..] == Overlay(old(mem[..]), at, bytes)
    {
      forall i | 0 <= i < |bytes| {
        mem[at + i] := bytes[i];
      }
      assert mem[..] == Overlay(old(mem[..]), at, bytes);
    }

    method Seek(offset: Offset, orig: int) returns (ret: int)
      requires Valid()
      modifies this`fPos
      ensures Valid() && Outcome(State(), ret, []) == Llseek(old(State()), offset, orig)
    {
      ret := 0;
      if orig == 0 {
        if offset < 0 {
          return -EINVAL;
        }
        if offset % TWO32 > SIZE {
          return -EINVAL;
        }
        fPos := offset % TWO32;
        ret := fPos;
      } else if orig == 1 {
        if Wrap64(fPos + offset) > SIZE {
          return -EINVAL;
        }
        if Wrap64(fPos + offset) < 0 {
          return -EINVAL;
        }
        fPos := Wrap64(fPos + offset);
        ret := fPos;
      } else {
        ret := -EINVAL;
      }
    }
  }
}
