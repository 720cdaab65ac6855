/**
 The weak checksum of a block and its constant-time update for a sliding window
 (src/transfer/block_signature.cpp and src/transfer/delta.cpp).
 The specification sums over unbounded integers; the code wraps at 32 bits and keeps 16-bit halves.
 */
module Checksum {
  import opened Base

  /** Plain sum of the window. */
  function SumA(w: Bytes): nat {
    if w == [] then 0 else w[0] as int + SumA(w[1..])
  }

  /** Position-weighted sum: the first byte has weight |w|, the last one weight 1. */
  function SumB(w: Bytes): nat {
    if w == [] then 0 else |w| * w[0] as int + SumB(w[1..])
  }

  /** The weak checksum, defined without any wrap-around. */
  function WeakOf(w: Bytes): U32 {
    SumA(w) % 0x10000 + (SumB(w) % 0x10000) * 0x10000
  }

  /** The low half sums the bytes, the high half sums them weighted by how many follow, themselves included. */
  lemma WeakOfIs(w: Bytes)
    ensures WeakOf(w) % 65536 == SumA(w) % 65536 && WeakOf(w) / 65536 == SumB(w) % 65536
    ensures WeakOf([]) == 0 && WeakOf([1, 2, 3]) == 10 * 65536 + 6 && WeakOf([255, 0]) == 510 * 65536 + 255
  {
    assert [1, 2, 3][1..] == [2, 3] && [2, 3][1..] == [3] && [3][1..] == [];
    assert SumA([2, 3]) == 5 && SumB([2, 3]) == 7;
    assert [255, 0][1..] == [0] && [0][1..] == [] && SumA([0]) == 0 && SumB([0]) == 0;
  }

  /** 32-bit unsigned wrap-around. */
  function Wrap(x: int): U32 {
    x % U32_LIMIT
  }

  /** The low 16 bits. */
  function Low16(x: U32): U16 {
    x % 0x10000
  }

  lemma {:induction false} SumsOfAppend(w: Bytes, x: Byte)
    ensures SumA(w + [x]) == SumA(w) + x as int
    ensures SumB(w + [x]) == SumB(w) + SumA(w) + x as int
  {
    if w == [] {
      assert w + [x] == [x];
    } else {
      assert (w + [x])[1..] == w[1..] + [x];
      SumsOfAppend(w[1..], x);
      assert |w + [x]| * w[0] as int == |w| * w[0] as int + w[0] as int;
    }
  }

  /** What one slide of the window does to the two unbounded sums. */
  lemma SumsOfSlide(w: Bytes, x: Byte)
    requires w != []
    ensures SumA(w[1..] + [x]) == SumA(w) - w[0] as int + x as int
    ensures SumB(w[1..] + [x]) == SumB(w) - |w| * w[0] as int + SumA(w[1..] + [x])
  {
    SumsOfAppend(w[1..], x);
  }

  /**
   Adding a possibly wrapped 32-bit product and cutting to 16 bits is addition modulo 2^16:
   the intermediate wrap-arounds at 2^32 are invisible. The result q counts the dropped multiples of 2^16.
   */
  lemma CutOfSum(x: int, p: int) returns (q: int)
    ensures x + p == Low16(Wrap(x + Wrap(p))) + q * 0x10000
    ensures Low16(Wrap(x + p)) == Low16(Wrap(x + Wrap(p)))
  {
    var k := p / U32_LIMIT;
    var y := x + Wrap(p);
    assert p == Wrap(p) + k * U32_LIMIT;
    assert Wrap(y + k * U32_LIMIT) == Wrap(y);
    var q0 := Cut(y);
    q := q0 + k * 0x10000;
  }

  lemma Cut(x: int) returns (q: int)
    ensures x == Low16(Wrap(x)) + q * 0x10000
  {
    q := (x / U32_LIMIT) * 0x10000 + Wrap(x) / 0x10000;
  }

  lemma Residue(total: int, low: int, k: int)
    requires total == low + k * 0x10000 && 0 <= low < 0x10000
    ensures low == total % 0x10000
  {
  }

  lemma SumsOfRest(w: Bytes, i: nat)
    requires i < |w|
    ensures SumA(w[i..]) == w[i] as int + SumA(w[i + 1..])
    ensures SumB(w[i..]) == (|w| - i) * w[i] as int + SumB(w[i + 1..])
  {
    assert w[i..][0] == w[i] && w[i..][1..] == w[i + 1..];
  }

  /** The two halves after one slide, computed from the halves before it. */
  lemma SlideHalves(a: int, b: int, w: Bytes, x: Byte)
    requires w != []
    requires a == SumA(w) % 0x10000 && b == SumB(w) % 0x10000
    ensures var a' := Low16(Wrap(a + 0x10000 - w[0] as int + x as int));
            && a' == SumA(w[1..] + [x]) % 0x10000
            && Low16(Wrap(b + 0x10000 - Low16(Wrap(|w| * w[0] as int)) + a')) == SumB(w[1..] + [x]) % 0x10000
  {
    SumsOfSlide(w, x);
    SlideArithmetic(SumA(w), SumB(w), |w| * w[0] as int, w[0] as int, x as int, SumA(w[1..] + [x]), SumB(w[1..] + [x]));
  }

  lemma SlideArithmetic(sumA: int, sumB: int, p: int, old0: int, new0: int, sumA': int, sumB': int)
    requires sumA' == sumA - old0 + new0 && sumB' == sumB - p + sumA'
    ensures var a' := Low16(Wrap(sumA % 0x10000 + 0x10000 - old0 + new0));
            && a' == sumA' % 0x10000
            && Low16(Wrap(sumB % 0x10000 + 0x10000 - Low16(Wrap(p)) + a')) == sumB' % 0x10000
  {
    var a, b := sumA % 0x10000, sumB % 0x10000;
    var q := Cut(a + 0x10000 - old0 + new0);
    var a' := Low16(Wrap(a + 0x10000 - old0 + new0));
    var ka, kb := sumA / 0x10000, sumB / 0x10000;
    assert sumA == a + ka * 0x10000 && sumB == b + kb * 0x10000;
    Residue(sumA', a', q - 1 + ka);
    var qp := Cut(p);
    var lp := Low16(Wrap(p));
    var qb := Cut(b + 0x10000 - lp + a');
    Residue(sumB', Low16(Wrap(b + 0x10000 - lp + a')), qb - 1 + kb - qp + q - 1 + ka);
  }

  method WeakChecksum(data: Bytes) returns (r: U32)
    ensures r == WeakOf(data[..|data| % U32_LIMIT])
  {
    var a: U32, b: U32 := 0, 0;
    var size: U32 := |data| % U32_LIMIT;
    ghost var w := data[..size];
    ghost var ka, kb := 0, 0;
    var i := 0;
    while i < size
      invariant 0 <= i <= size
      invariant a < 0x10000 && b < 0x10000
      invariant a + SumA(w[i..]) + ka * 0x10000 == SumA(w)
      invariant b + SumB(w[i..]) + kb * 0x10000 == SumB(w)
    {
      var value := data[i] as int;
      SumsOfRest(w, i);
      ghost var qa := CutOfSum(a, value);
      ghost var qb := CutOfSum(b, (|w| - i) * value);
      ka, kb := ka + qa, kb + qb;
      a := Low16(Wrap(a + value));
      b := Low16(Wrap(b + Wrap((size - i) * value)));
      i := i + 1;
    }
    Residue(SumA(w), a, ka);
    Residue(SumB(w), b, kb);
    r := a + b * 0x10000;
  }

  /** The checksum of a window of fixed size, updated in place as the window slides. */
  class RollingChecksum {
    var size: U32
    var a: U32
    var b: U32

    /** The state is that of a freshly computed checksum of w. */
    ghost predicate Tracks(w: Bytes)
      reads this
    {
      size == |w| && a == SumA(w) % 0x10000 && b == SumB(w) % 0x10000
    }

    constructor FromWindow(window: Bytes)
      requires |window| < U32_LIMIT
      ensures Tracks(window)
    {
      var a': U32, b': U32 := 0, 0;
      ghost var ka, kb := 0, 0;
      var i := 0;
      while i < |window|
        invariant 0 <= i <= |window|
        invariant a' < 0x10000 && b' < 0x10000
        invariant a' + SumA(window[i..]) + ka * 0x10000 == SumA(window)
        invariant b' + SumB(window[i..]) + kb * 0x10000 == SumB(window)
      {
        var value := window[i] as int;
        SumsOfRest(window, i);
        ghost var qa := CutOfSum(a', value);
        ghost var qb := CutOfSum(b', (|window| - i) * value);
        ka, kb := ka + qa, kb + qb;
        a' := Low16(Wrap(a' + value));
        b' := Low16(Wrap(b' + Wrap((|window| - i) * value)));
        i := i + 1;
      }
      Residue(SumA(window), a', ka);
      Residue(SumB(window), b', kb);
      size, a, b := |window|, a', b';
    }

    method Value() returns (r: U32)
      ensures forall w :: Tracks(w) ==> r == WeakOf(w)
    {
      r := Wrap(a + b * 0x10000);
    }

    method Slide(oldByte: Byte, newByte: Byte, ghost w: Bytes)
      requires Tracks(w) && w != [] && w[0] == oldByte
      modifies this
      ensures Tracks(w[1..] + [newByte])
    {
      SumsOfSlide(w, newByte);
      SlideHalves(a, b, w, newByte);
      a := Low16(Wrap(a + 0x10000 - oldByte as int + newByte as int));
      b := Low16(Wrap(b + 0x10000 - Low16(Wrap(size * oldByte as int)) + a));
    }
  }
}
