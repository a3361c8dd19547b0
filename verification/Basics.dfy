/** Vocabulary shared by every component. */
module Basics {
  type Byte = x: int | 0 <= x < 256

  datatype Option<+T> = None | Some(value: T)

  function Min(a: nat, b: nat): nat {
    if a <= b then a else b
  }

  /** `s` with the bytes `piece` laid over it from position `at` on. */
  function Overlay(s: seq<Byte>, at: nat, piece: seq<Byte>): (r: seq<Byte>)
    requires at + |piece| <= |s|
    ensures |r| == |s|
    ensures r[..at] == s[..at] && r[at..at + |piece|] == piece && r[at + |piece|..] == s[at + |piece|..]
  {
    s[..at] + piece + s[at + |piece|..]
  }

  // ------------------------------------------------------- quotient and remainder

  lemma MulStep(w: nat, a: nat, b: nat)
    requires a < b
    ensures w * a + w <= w * b
  {
    var d: nat := b - a - 1;
    assert w * b == w * (a + 1) + w * d;
    assert w * (a + 1) == w * a + w;
    MulNat(w, d);
  }

  lemma MulNat(a: nat, b: nat)
    ensures 0 <= a * b
  {
  }

  lemma MulWithin(w: nat, h: nat, maxW: nat)
    requires 0 < w <= maxW && 0 < h
    ensures 0 < w * h <= maxW * h
  {
    var rest: nat := maxW - w;
    assert maxW * h == w * h + rest * h;
    MulNat(rest, h);
    MulStep(w, 0, h);
  }

  /** Numbers w * a + b with b < w are ordered by a first, and determine a and b. */
  lemma RankOrder(w: nat, a: nat, b: nat, a': nat, b': nat)
    requires b < w && b' < w
    ensures a < a' ==> w * a + b < w * a' + b'
    ensures w * a + b == w * a' + b' ==> a == a' && b == b'
  {
    if a < a' {
      MulStep(w, a, a');
    } else if a' < a {
      MulStep(w, a', a);
    }
  }

  lemma ModUnique(a: nat, size: nat, q: nat, r: nat)
    requires r < size && a == size * q + r
    ensures a % size == r && a / size == q
  {
    RankOrder(size, a / size, a % size, q, r);
  }
}
