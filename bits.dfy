/**
 * Bit lists on natural numbers: the readout-group masks, contributor lists
 * and builder lists that the event-builder code keeps in `uint16_t` and
 * `uint64_t` words, with `&`, `|`, `1 << n` and `std::bitset<64>::count()`,
 * and the shift-and-mask field extraction of Python's `(v >> s) & mask`;
 * and octets with the little-endian layout of a 32-bit word.
 */
module Bits {

  /** 2 to the n-th power, the value of `1 << n`. */
  function Pow2(n: nat): (r: nat)
    ensures r >= 1
  {
    if n == 0 then 1 else 2 * Pow2(n - 1)
  }

  /** Bit i of x is set. */
  predicate Bit(x: nat, i: nat)
  {
    if i == 0 then x % 2 == 1 else Bit(x / 2, i - 1)
  }

  /** Bitwise OR, `a | b`. */
  function Or(a: nat, b: nat): nat
    decreases a + b
  {
    if a == 0 then b
    else if b == 0 then a
    else 2 * Or(a / 2, b / 2) + (if a % 2 == 1 || b % 2 == 1 then 1 else 0)
  }

  /** Bitwise AND, `a & b`. */
  function And(a: nat, b: nat): nat
    decreases a + b
  {
    if a == 0 || b == 0 then 0
    else 2 * And(a / 2, b / 2) + (if a % 2 == 1 && b % 2 == 1 then 1 else 0)
  }

  /** The number of set bits, `std::bitset<64>(x).count()` for x below 2^64. */
  function Popcount(x: nat): nat
  {
    if x == 0 then 0 else x % 2 + Popcount(x / 2)
  }

  /** The positions of the set bits of x below `width`. */
  function Ones(x: nat, width: nat): set<nat>
  {
    set i: nat | i < width && Bit(x, i)
  }

  lemma {:induction false} OrBit(a: nat, b: nat, i: nat)
    ensures Bit(Or(a, b), i) <==> Bit(a, i) || Bit(b, i)
    decreases a + b
  {
    if a == 0 {
      ZeroHasNoBits(i);
    } else if b == 0 {
      ZeroHasNoBits(i);
    } else if i > 0 {
      OrBit(a / 2, b / 2, i - 1);
    }
  }

  lemma {:induction false} AndBit(a: nat, b: nat, i: nat)
    ensures Bit(And(a, b), i) <==> Bit(a, i) && Bit(b, i)
    decreases a + b
  {
    if a == 0 || b == 0 {
      ZeroHasNoBits(i);
    } else if i > 0 {
      AndBit(a / 2, b / 2, i - 1);
    }
  }

  lemma {:induction false} ZeroHasNoBits(i: nat)
    ensures !Bit(0, i)
  {
    if i > 0 {
      ZeroHasNoBits(i - 1);
    }
  }

  /** `1 << n` has exactly bit n set. */
  lemma {:induction false} Pow2Bit(n: nat, i: nat)
    ensures Bit(Pow2(n), i) <==> i == n
  {
    if n == 0 {
      if i > 0 {
        ZeroHasNoBits(i - 1);
      }
    } else if i > 0 {
      Pow2Bit(n - 1, i - 1);
    }
  }

  /** A value below 2^width has no bit at or above width. */
  lemma {:induction false} HighBitsClear(x: nat, width: nat, i: nat)
    requires x < Pow2(width) && i >= width
    ensures !Bit(x, i)
  {
    if width == 0 {
      ZeroHasNoBits(i);
    } else if i > 0 {
      HighBitsClear(x / 2, width - 1, i - 1);
    }
  }

  /** Two values below 2^width with the same bits are equal. */
  lemma {:induction false} BitsDetermineValue(x: nat, y: nat, width: nat)
    requires x < Pow2(width) && y < Pow2(width)
    requires forall i: nat :: i < width ==> (Bit(x, i) <==> Bit(y, i))
    ensures x == y
  {
    if width > 0 {
      assert Bit(x, 0) <==> Bit(y, 0);
      forall i: nat | i < width - 1
        ensures Bit(x / 2, i) <==> Bit(y / 2, i)
      {
        assert Bit(x, i + 1) <==> Bit(y, i + 1);
      }
      BitsDetermineValue(x / 2, y / 2, width - 1);
    }
  }

  /** A bit list below 2^width is zero exactly when none of its bits is set. */
  lemma ZeroIffNoBits(x: nat, width: nat)
    requires x < Pow2(width)
    ensures x == 0 <==> Ones(x, width) == {}
  {
    if x == 0 {
      forall i: nat | i < width ensures !Bit(x, i) {
        ZeroHasNoBits(i);
      }
    } else {
      if Ones(x, width) == {} {
        forall i: nat | i < width ensures Bit(x, i) <==> Bit(0, i) {
          ZeroHasNoBits(i);
          assert i !in Ones(x, width);
        }
        BitsDetermineValue(x, 0, width);
      }
    }
  }

  /** Every element of s moved up by one. */
  function Succs(s: set<nat>): set<nat>
  {
    set i | i in s :: i + 1
  }

  lemma {:induction false} OnesShift(x: nat, width: nat)
    requires width > 0
    ensures Ones(x, width) == (if x % 2 == 1 then {0} else {}) + Succs(Ones(x / 2, width - 1))
  {
    var lhs := Ones(x, width);
    var rhs := (if x % 2 == 1 then {0} else {}) + Succs(Ones(x / 2, width - 1));
    forall i | i in lhs ensures i in rhs {
      if i > 0 {
        assert (i - 1) in Ones(x / 2, width - 1);
        assert (i - 1) + 1 in Succs(Ones(x / 2, width - 1));
      }
    }
  }

  lemma {:induction false} SuccsSize(s: set<nat>)
    ensures |Succs(s)| == |s|
    ensures 0 !in Succs(s)
    decreases |s|
  {
    if s != {} {
      var x :| x in s;
      var rest := s - {x};
      SuccsSize(rest);
      forall y | y in Succs(s) ensures y in Succs(rest) + {x + 1} {
        var i :| i in s && y == i + 1;
        if i != x {
          assert i in rest;
        }
      }
      forall y | y in Succs(rest) + {x + 1} ensures y in Succs(s) {
        if y != x + 1 {
          var i :| i in rest && y == i + 1;
        }
      }
      assert Succs(s) == Succs(rest) + {x + 1};
      assert x + 1 !in Succs(rest);
    } else {
      assert Succs(s) == {};
    }
  }

  /** The popcount of a width-bit word is the number of its set bit positions. */
  lemma {:induction false} PopcountIsOnesSize(x: nat, width: nat)
    requires x < Pow2(width)
    ensures Popcount(x) == |Ones(x, width)|
  {
    if width == 0 {
      assert Ones(x, width) == {};
    } else {
      PopcountIsOnesSize(x / 2, width - 1);
      OnesShift(x, width);
      SuccsSize(Ones(x / 2, width - 1));
    }
  }

  /** A width-bit word has at most width bits set. */
  lemma {:induction false} PopcountBound(x: nat, width: nat)
    requires x < Pow2(width)
    ensures Popcount(x) <= width
  {
    if width > 0 {
      PopcountBound(x / 2, width - 1);
    }
  }

  /** OR and AND stay within a width-bit word. */
  lemma {:induction false} OrBound(a: nat, b: nat, width: nat)
    requires a < Pow2(width) && b < Pow2(width)
    ensures Or(a, b) < Pow2(width)
    decreases a + b
  {
    if a != 0 && b != 0 && width > 0 {
      OrBound(a / 2, b / 2, width - 1);
    }
  }

  lemma {:induction false} AndBound(a: nat, b: nat, width: nat)
    requires b < Pow2(width)
    ensures And(a, b) < Pow2(width) && And(a, b) <= b
    decreases a + b
  {
    if a != 0 && b != 0 && width > 0 {
      AndBound(a / 2, b / 2, width - 1);
    }
  }

  lemma {:induction false} Pow2Monotone(m: nat, n: nat)
    requires m < n
    ensures Pow2(m) < Pow2(n)
  {
    if m + 1 < n {
      Pow2Monotone(m, n - 1);
    }
  }

  lemma {:induction false} MulMonotone(d: int, n: int)
    requires d >= 1 && n >= 1
    ensures d * n >= n
  {
    if d > 1 {
      MulMonotone(d - 1, n);
      assert d * n == (d - 1) * n + n;
    }
  }

  /** Euclidean remainder is determined by any quotient-remainder decomposition. */
  lemma ModUnique(x: int, n: int, q: int, r: int)
    requires n >= 1 && 0 <= r < n && x == q * n + r
    ensures x % n == r
  {
    var q', r' := x / n, x % n;
    assert x == q' * n + r';
    if q > q' {
      MulMonotone(q - q', n);
      assert false;
    } else if q < q' {
      MulMonotone(q' - q, n);
      assert false;
    }
  }

  /** Counting one more: the remainder steps up by one and wraps to 0 at n. */
  lemma ModSucc(a: nat, n: int)
    requires n >= 1
    ensures (a + 1) % n == if a % n + 1 == n then 0 else a % n + 1
  {
    var q, r := a / n, a % n;
    assert a == q * n + r;
    if r + 1 == n {
      assert a + 1 == (q + 1) * n + 0;
      ModUnique(a + 1, n, q + 1, 0);
    } else {
      ModUnique(a + 1, n, q, r + 1);
    }
  }

  /** Python's `v >> shift` on a non-negative value. */
  function Shifted(v: nat, shift: nat): nat
  {
    DivNat(v, Pow2(shift));
    v / Pow2(shift)
  }

  /** The quotient of a natural number by a positive one is natural. */
  lemma DivNat(v: nat, p: int)
    requires p >= 1
    ensures v / p >= 0
  {
    assert v == (v / p) * p + v % p;
  }

  /** The mask of the low `width` bits, `2^width - 1`. */
  function Mask(width: nat): nat
  {
    Pow2(width) - 1
  }

  /** Python's `(v >> shift) & (2^width - 1)` on a non-negative value. */
  function Field(v: nat, shift: nat, width: nat): nat
  {
    And(Shifted(v, shift), Mask(width))
  }

  /** One step of `&` with a low mask: the low bit of x, then the rest under a mask one bit shorter. */
  lemma AndLowMaskStep(x: nat, w: nat)
    requires x != 0 && w != 0
    ensures And(x, Pow2(w) - 1) == 2 * And(x / 2, Pow2(w - 1) - 1) + x % 2
  {
    var m := Pow2(w) - 1;
    assert m == 2 * (Pow2(w - 1) - 1) + 1;
  }

  /** The remainder modulo 2h from the remainder of x / 2 modulo h. */
  lemma ModDouble(x: nat, h: nat)
    requires h >= 1
    ensures x % (2 * h) == 2 * ((x / 2) % h) + x % 2
  {
    var q, r := (x / 2) / h, (x / 2) % h;
    assert x / 2 == q * h + r;
    assert x == q * (2 * h) + (2 * r + x % 2);
    ModUnique(x, 2 * h, q, 2 * r + x % 2);
  }

  /** Masking with 2^w - 1 keeps exactly the remainder modulo 2^w. */
  lemma {:induction false} AndLowMask(x: nat, w: nat)
    ensures And(x, Pow2(w) - 1) == x % Pow2(w)
  {
    if x != 0 && w != 0 {
      AndLowMaskStep(x, w);
      AndLowMask(x / 2, w - 1);
      ModDouble(x, Pow2(w - 1));
    }
  }

  /** A field is the remainder of the shifted value, so below 2^width. */
  lemma FieldIsMod(v: nat, shift: nat, width: nat)
    ensures Field(v, shift, width) == (v / Pow2(shift)) % Pow2(width)
    ensures Field(v, shift, width) < Pow2(width)
  {
    AndLowMask(v / Pow2(shift), width);
  }

  lemma {:induction false} Pow2Add(a: nat, b: nat)
    ensures Pow2(a + b) == Pow2(a) * Pow2(b)
  {
    if b != 0 {
      Pow2Add(a, b - 1);
    }
  }

  /** Euclidean division is determined by any quotient-remainder decomposition. */
  lemma DivUnique(x: int, n: int, q: int, r: int)
    requires n >= 1 && 0 <= r < n && x == q * n + r
    ensures x / n == q
  {
    ModUnique(x, n, q, r);
    var d := x / n;
    assert (d - q) * n == 0;
  }

  /** The field of width w at shift s of `hi * 2^(s+w) + f * 2^s + lo` is f. */
  lemma FieldOf(hi: nat, f: nat, lo: nat, s: nat, w: nat)
    requires f < Pow2(w) && lo < Pow2(s)
    ensures Field(hi * Pow2(s + w) + f * Pow2(s) + lo, s, w) == f
  {
    var v := hi * Pow2(s + w) + f * Pow2(s) + lo;
    var p, q := Pow2(s), Pow2(w);
    Pow2Add(s, w);
    assert hi * (p * q) == (hi * q) * p;
    assert v == (hi * q + f) * p + lo;
    DivUnique(v, p, hi * q + f, lo);
    ModUnique(hi * q + f, q, hi, f);
    FieldIsMod(v, s, w);
  }

  /** An octet, the `unsigned char` of a byte buffer. */
  newtype Byte = b: int | 0 <= b < 256

  /** A word as its four little-endian bytes, modulo 2^32. */
  function Le32(x: nat): (b: seq<Byte>)
    ensures |b| == 4
  {
    var x1 := x / 256;
    var x2 := x1 / 256;
    var x3 := x2 / 256;
    [(x % 256) as Byte, (x1 % 256) as Byte, (x2 % 256) as Byte, (x3 % 256) as Byte]
  }

  /** The unsigned 32-bit word of four little-endian bytes. */
  function ReadLe32(b: seq<Byte>): (x: nat)
    requires |b| == 4
    ensures x < 0x1_0000_0000
  {
    b[0] as int + 256 * (b[1] as int) + 65536 * (b[2] as int) + 16777216 * (b[3] as int)
  }

  /** The remainder modulo 256m from the low byte and the rest modulo m. */
  lemma ByteSplit(x: nat, m: nat)
    requires m >= 1
    ensures x % (256 * m) == x % 256 + 256 * ((x / 256) % m)
  {
    var q, r := (x / 256) / m, (x / 256) % m;
    assert x / 256 == q * m + r;
    assert x == q * (256 * m) + (256 * r + x % 256);
    assert 256 * r + x % 256 < 256 * m by {
      assert r <= m - 1;
      assert 256 * r <= 256 * (m - 1);
    }
    ModUnique(x, 256 * m, q, 256 * r + x % 256);
  }

  /** Reading back a word keeps its value modulo 2^32. */
  lemma Le32RoundTrip(x: nat)
    ensures ReadLe32(Le32(x)) == x % 0x1_0000_0000
  {
    var x1 := x / 256;
    var x2 := x1 / 256;
    var x3 := x2 / 256;
    ByteSplit(x, 0x100_0000);
    ByteSplit(x1, 0x1_0000);
    ByteSplit(x2, 0x100);
  }
}
