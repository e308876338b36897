/** Fixed-width integers, wrap-around arithmetic, big-endian fields and bit operations
    shared by every model in this project. */
module Words {

  type u8 = x: int | 0 <= x < 0x100
  type u16 = x: int | 0 <= x < 0x1_0000
  type u32 = x: int | 0 <= x < 0x1_0000_0000

  type UserId = string

  /** A monotonic clock reading, in nanoseconds. */
  type Instant = nat

  datatype Option<+T> = None | Some(value: T)

  /** `wrapping_*` on u16: the integer result reduced modulo 2^16. */
  function Wrap16(x: int): u16 {
    x % 0x1_0000
  }

  /** `wrapping_*` on u32. */
  function Wrap32(x: int): u32 {
    x % 0x1_0000_0000
  }

  /** `saturating_sub` and `Instant::duration_since`. */
  function SatSub(a: int, b: int): nat {
    if a >= b then a - b else 0
  }

  function Min(a: int, b: int): int {
    if a <= b then a else b
  }

  function Max(a: int, b: int): int {
    if a >= b then a else b
  }

  /** Numbers that differ by a multiple of 2^16 wrap to the same value. */
  lemma Congruent16(a: int, b: int, q: int)
    requires a == b + 0x1_0000 * q
    ensures Wrap16(a) == Wrap16(b)
  {
  }

  lemma Congruent32(a: int, b: int, q: int)
    requires a == b + 0x1_0000_0000 * q
    ensures Wrap32(a) == Wrap32(b)
  {
  }

  /** Wrapping an operand first does not change a wrapped sum. */
  lemma WrapInner16(x: int, y: int)
    ensures Wrap16(Wrap16(x) + y) == Wrap16(x + y)
  {
    Congruent16(Wrap16(x) + y, x + y, -(x / 0x1_0000));
  }

  lemma WrapInner32(x: int, y: int)
    ensures Wrap32(Wrap32(x) + y) == Wrap32(x + y)
  {
    Congruent32(Wrap32(x) + y, x + y, -(x / 0x1_0000_0000));
  }

  /** Wrapped differences only depend on the unwrapped ones. */
  lemma WrapDifference16(x: int, y: int)
    ensures Wrap16(Wrap16(x) - Wrap16(y)) == Wrap16(x - y)
  {
    Congruent16(Wrap16(x) - Wrap16(y), x - y, y / 0x1_0000 - x / 0x1_0000);
  }

  lemma WrapDifference32(x: int, y: int)
    ensures Wrap32(Wrap32(x) - Wrap32(y)) == Wrap32(x - y)
  {
    Congruent32(Wrap32(x) - Wrap32(y), x - y, y / 0x1_0000_0000 - x / 0x1_0000_0000);
  }

  // ---------------------------------------------------------------- big-endian fields

  function Be16(w: u16): (s: seq<u8>)
    ensures |s| == 2
  {
    [w / 0x100, w % 0x100]
  }

  function Be32(w: u32): (s: seq<u8>)
    ensures |s| == 4
  {
    Be16(w / 0x1_0000) + Be16(w % 0x1_0000)
  }

  /** The 16-bit field at offset `o`. */
  function U16At(s: seq<u8>, o: nat): u16
    requires o + 2 <= |s|
  {
    s[o] as int * 0x100 + s[o + 1]
  }

  /** The 32-bit field at offset `o`. */
  function U32At(s: seq<u8>, o: nat): u32
    requires o + 4 <= |s|
  {
    U16At(s, o) as int * 0x1_0000 + U16At(s, o + 2)
  }

  /** The sizes of both packet rings divide 2^16, so wrapping a number does not change its slot. */
  lemma WrapSlot(n: int)
    ensures Wrap16(n) % 512 == n % 512 && Wrap16(n) % 8192 == n % 8192
  {
    var w, k := Wrap16(n), n / 0x1_0000;
    assert n == w + 0x1_0000 * k;
    Ring512(w, 128 * k);
    Ring8192(w, 8 * k);
  }

  lemma Ring512(w: int, k: int)
    ensures (w + 512 * k) % 512 == w % 512
  {
    assert w + 512 * k == 512 * (w / 512 + k) + w % 512;
  }

  lemma Ring8192(w: int, k: int)
    ensures (w + 8192 * k) % 8192 == w % 8192
  {
    assert w + 8192 * k == 8192 * (w / 8192 + k) + w % 8192;
  }

  lemma SubSlice<T>(s: seq<T>, lo: nat, hi: nat, i: nat, j: nat)
    requires lo <= hi <= |s| && i <= j <= hi - lo
    ensures s[lo..hi][i..j] == s[lo + i..lo + j]
  {
    var a, b := s[lo..hi][i..j], s[lo + i..lo + j];
    forall k | 0 <= k < |a|
      ensures a[k] == b[k]
    {
      assert a[k] == s[lo..hi][i + k] == s[lo + (i + k)];
    }
  }

  lemma AppendAssociative<T>(a: seq<T>, b: seq<T>, c: seq<T>)
    ensures a + (b + c) == (a + b) + c
  {
  }

  lemma Be16At(s: seq<u8>, o: nat, w: u16)
    requires o + 2 <= |s| && s[o..o + 2] == Be16(w)
    ensures U16At(s, o) == w
  {
    assert s[o] == s[o..o + 2][0] && s[o + 1] == s[o..o + 2][1];
  }

  lemma Be32At(s: seq<u8>, o: nat, w: u32)
    requires o + 4 <= |s| && s[o..o + 4] == Be32(w)
    ensures U32At(s, o) == w
  {
    assert s[o..o + 2] == s[o..o + 4][..2] == Be16(w / 0x1_0000);
    assert s[o + 2..o + 4] == s[o..o + 4][2..] == Be16(w % 0x1_0000);
    Be16At(s, o, w / 0x1_0000);
    Be16At(s, o + 2, w % 0x1_0000);
  }

  /** `(n + 3) & !3`: round up to a multiple of four. */
  function Ceil4(n: nat): (r: nat)
    ensures n <= r < n + 4 && r % 4 == 0
  {
    (n + 3) / 4 * 4
  }

  function Zeros(n: nat): (s: seq<u8>)
    ensures |s| == n && forall i :: 0 <= i < n ==> s[i] == 0
  {
    seq(n, _ => 0)
  }

  /** Overwrites a field of a buffer, byte by byte. */
  method WriteField(a: array<u8>, o: nat, field: seq<u8>)
    requires o + |field| <= a.Length
    modifies a
    ensures a[o..o + |field|] == field && a[..o + |field|] == old(a[..o]) + field
    ensures forall i :: 0 <= i < a.Length && !(o <= i < o + |field|) ==> a[i] == old(a[i])
  {
    for i := 0 to |field|
      invariant forall j :: 0 <= j < i ==> a[o + j] == field[j]
      invariant forall j :: 0 <= j < a.Length && !(o <= j < o + i) ==> a[j] == old(a[j])
    {
      a[o + i] := field[i];
    }
  }

  // ---------------------------------------------------------------- bit operations

  function Pow2(k: nat): (p: nat)
    ensures p > 0
  {
    if k == 0 then 1 else 2 * Pow2(k - 1)
  }

  lemma Pow2Widths()
    ensures Pow2(8) == 0x100 && Pow2(16) == 0x1_0000 && Pow2(32) == 0x1_0000_0000
  {
    assert Pow2(4) == 0x10;
    assert Pow2(12) == 0x1000;
    assert Pow2(20) == 0x10_0000;
    assert Pow2(24) == 0x100_0000;
    assert Pow2(28) == 0x1000_0000;
  }

  /** Bitwise `^`. */
  function Xor(a: nat, b: nat): nat {
    if a == 0 && b == 0 then 0 else 2 * Xor(a / 2, b / 2) + (a + b) % 2
  }

  /** Bitwise `|`. */
  function Or(a: nat, b: nat): nat {
    if a == 0 && b == 0 then 0 else 2 * Or(a / 2, b / 2) + Max(a % 2, b % 2)
  }

  /** Xor stays within the operands' width. */
  lemma {:induction false} XorBound(a: nat, b: nat, k: nat)
    requires a < Pow2(k) && b < Pow2(k)
    ensures Xor(a, b) < Pow2(k)
  {
    if a != 0 || b != 0 {
      XorBound(a / 2, b / 2, k - 1);
    }
  }

  /** The low bit and the remaining bits of an exclusive or. */
  lemma XorUnfold(a: nat, b: nat)
    ensures Xor(a, b) / 2 == Xor(a / 2, b / 2)
    ensures Xor(a, b) % 2 == (a + b) % 2
  {
  }

  /** Xor with the same key twice is the identity. */
  lemma {:induction false} XorInverse(a: nat, b: nat)
    ensures Xor(Xor(a, b), b) == a
  {
    if a == 0 && b == 0 {
      assert Xor(0, 0) == 0;
    } else {
      var x := Xor(a, b);
      assert x / 2 == Xor(a / 2, b / 2) && x % 2 == (a + b) % 2 by {
        XorUnfold(a, b);
      }
      assert Xor(x / 2, b / 2) == a / 2 by {
        XorInverse(a / 2, b / 2);
      }
      var y := Xor(x, b);
      assert y / 2 == a / 2 && y % 2 == (x + b) % 2 by {
        XorUnfold(x, b);
      }
      SameHalves(x, y, a, b);
    }
  }

  lemma SameHalves(x: nat, y: nat, a: nat, b: nat)
    requires y / 2 == a / 2 && y % 2 == (x + b) % 2 && x % 2 == (a + b) % 2
    ensures y == a
  {
    assert (x + b) % 2 == a % 2;
  }

  /** Or-ing a value into the zero bits below a shifted one is addition. */
  lemma {:induction false} OrShifted(c: nat, k: nat, b: nat)
    requires b < Pow2(k)
    ensures Or(c * Pow2(k), b) == c * Pow2(k) + b
  {
    var a := c * Pow2(k);
    if k == 0 {
      OrZero(a);
    } else {
      assert a == 2 * (c * Pow2(k - 1));
      OrShifted(c, k - 1, b / 2);
      OrUnfold(a, b);
    }
  }

  lemma OrUnfold(a: nat, b: nat)
    requires a % 2 == 0
    ensures Or(a, b) == 2 * Or(a / 2, b / 2) + b % 2
  {
  }

  lemma {:induction false} OrZero(a: nat)
    ensures Or(a, 0) == a
  {
    if a != 0 {
      OrZero(a / 2);
    }
  }
}
