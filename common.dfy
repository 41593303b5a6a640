/** Definitions shared by the decoder, the emulator and the trace buffers:
    the register width, powers of two and the bit-field arithmetic that
    stands for C++'s shifts and masks on unsigned integers. */
module Common {

  /** The register width a core runs with. */
  datatype XLEN = XLEN32 | XLEN64

  /** The privilege levels of the RISC-V Privileged ISA (section 1.2), with
      their two-bit encodings User 0, Supervisor 1, reserved 2, Machine 3. */
  datatype PrivilegeLevel = User | Supervisor | Reserved | Machine

  function PrivValue(p: PrivilegeLevel): (r: bv64)
    ensures r < 4
  {
    match p
    case User => 0
    case Supervisor => 1
    case Reserved => 2
    case Machine => 3
  }

  /** The level a two-bit field holds (`static_cast<PrivilegeLevel>`). */
  function PrivOf(v: bv64): (r: PrivilegeLevel)
    requires v < 4
    ensures PrivValue(r) == v
  {
    if v == 0 then User else if v == 1 then Supervisor else if v == 2 then Reserved else Machine
  }

  /** The encoding is one-to-one: reading back a level's value gives it. */
  lemma PrivRoundTrip(p: PrivilegeLevel)
    ensures PrivOf(PrivValue(p)) == p
  {
  }

  function Pow2(n: nat): (r: nat)
    ensures r >= 1
  {
    if n == 0 then 1 else 2 * Pow2(n - 1)
  }

  lemma {:induction false} Pow2Add(a: nat, b: nat)
    ensures Pow2(a + b) == Pow2(a) * Pow2(b)
  {
    if a > 0 {
      Pow2Add(a - 1, b);
      assert Pow2(a + b) == 2 * Pow2(a - 1 + b);
    }
  }

  lemma MulAtLeast(a: int, d: int)
    requires a >= 1 && d > 0
    ensures a * d >= d
  {
  }

  /** Division with remainder is unique. */
  lemma DivMod(x: int, d: int, q: int, r: int)
    requires d > 0 && x == q * d + r && 0 <= r < d
    ensures x / d == q && x % d == r
  {
    var q', r' := x / d, x % d;
    assert (q - q') * d == r' - r;
    if q > q' {
      MulAtLeast(q - q', d);
    } else if q < q' {
      MulAtLeast(q' - q, d);
    }
  }

  /** `(x >> lsb) & ((1 << width) - 1)` on an unsigned value: the `width`
      bits of `x` starting at bit `lsb`, shifting one bit at a time. */
  function Bits(x: nat, lsb: nat, width: nat): (r: nat)
    ensures r < Pow2(width)
  {
    if lsb == 0 then Low(x, width) else Bits(x / 2, lsb - 1, width)
  }

  /** The low `width` bits of `x`, one bit at a time. */
  function Low(x: nat, width: nat): (r: nat)
    ensures r < Pow2(width)
  {
    if width == 0 then 0 else 2 * Low(x / 2, width - 1) + x % 2
  }

  /** The low `width` bits are the remainder by `2^width`. */
  lemma {:induction false} LowMod(x: nat, width: nat)
    ensures Low(x, width) == x % Pow2(width)
  {
    if width > 0 {
      var p := Pow2(width - 1);
      LowMod(x / 2, width - 1);
      var q, r := (x / 2) / p, (x / 2) % p;
      assert x == (q * p) * 2 + (2 * r + x % 2);
      assert (q * p) * 2 == q * (2 * p);
      DivMod(x, 2 * p, q, 2 * r + x % 2);
    }
  }

  /** The bits at `lsb` are the remainder of the quotient by `2^lsb`. */
  lemma {:induction false} BitsDiv(x: nat, lsb: nat, width: nat)
    ensures Bits(x, lsb, width) == (x / Pow2(lsb)) % Pow2(width)
  {
    if lsb == 0 {
      LowMod(x, width);
    } else {
      BitsDiv(x / 2, lsb - 1, width);
      HalfDiv(x, Pow2(lsb - 1));
    }
  }

  lemma HalfDiv(x: nat, p: nat)
    requires p >= 1
    ensures (x / 2) / p == x / (2 * p)
  {
    var q, r := x / (2 * p), x % (2 * p);
    assert x == 2 * (p * q + r / 2) + r % 2;
    DivMod(x, 2, p * q + r / 2, r % 2);
    DivMod(x / 2, p, q, r / 2);
  }

  /** Dividing by `p` and then by `q` is dividing by `p·q`. */
  lemma DivDiv(x: nat, p: nat, q: nat)
    requires p >= 1 && q >= 1
    ensures (x / p) / q == x / (p * q)
  {
    var q0, r0 := x / (p * q), x % (p * q);
    assert x == (p * q) * q0 + r0;
    assert r0 == p * (r0 / p) + r0 % p;
    assert x == p * (q * q0 + r0 / p) + r0 % p;
    DivMod(x, p, q * q0 + r0 / p, r0 % p);
    DivMod(x / p, q, q0, r0 / p);
  }

  lemma BitsAtMost(x: nat, lsb: nat, width: nat)
    ensures Bits(x, lsb, width) <= x
  {
    BitsDiv(x, lsb, width);
    DivAtMost(x, Pow2(lsb));
    ModAtMost(x / Pow2(lsb), Pow2(width));
  }

  lemma DivAtMost(x: nat, d: nat)
    requires d >= 1
    ensures 0 <= x / d <= x
  {
    var q, r := x / d, x % d;
    assert x == q * d + r;
    if q > 0 {
      MulAtLeast(q, d);
      MulAtLeast(d, q);
    }
  }

  lemma ModAtMost(q: nat, w: nat)
    requires w >= 1
    ensures q % w <= q
  {
    if q < w {
      DivMod(q, w, 0, q);
    }
  }

  /** A bit field reads back what was put there: when
      x = hi·2^(lsb+width) + mid·2^lsb + lo with the middle part and the low
      part in range, the `width` bits at `lsb` are `mid`. */
  lemma BitsOf(x: nat, lsb: nat, width: nat, hi: nat, mid: nat, lo: nat)
    requires mid < Pow2(width) && lo < Pow2(lsb)
    requires x == hi * Pow2(lsb + width) + mid * Pow2(lsb) + lo
    ensures Bits(x, lsb, width) == mid
  {
    var p, w := Pow2(lsb), Pow2(width);
    BitsDiv(x, lsb, width);
    Pow2Add(lsb, width);
    Regroup(hi, mid, w, p);
    DivMod(x, p, hi * w + mid, lo);
    DivMod(hi * w + mid, w, hi, mid);
  }

  lemma Regroup(hi: int, mid: int, w: int, p: int)
    ensures hi * (p * w) + mid * p == (hi * w + mid) * p
  {
    calc {
      (hi * w + mid) * p;
    ==  { assert (hi * w + mid) * p == hi * w * p + mid * p; }
      hi * w * p + mid * p;
    ==  { assert hi * w * p == hi * (p * w); }
      hi * (p * w) + mid * p;
    }
  }
}
