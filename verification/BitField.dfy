/** Bit fields of up to eight bits inside a byte array (src/macsw/export/co_utils.h): the array is one
    flat sequence of bits, least significant bit of each byte first, and a field may straddle two
    bytes. */
module BitField {

  // ---------- Bytes ----------

  // A byte as its eight bits, least significant first; the operators are C's, with what leaves the
  // byte dropped as in the stores of the program.
  type Octet = b: seq<bool> | |b| == 8 witness [false, false, false, false, false, false, false, false]

  function And(a: Octet, b: Octet): Octet { seq(8, k requires 0 <= k < 8 => a[k] && b[k]) }

  function Or(a: Octet, b: Octet): Octet { seq(8, k requires 0 <= k < 8 => a[k] || b[k]) }

  function Not(a: Octet): Octet { seq(8, k requires 0 <= k < 8 => !a[k]) }

  function Shl(a: Octet, s: nat): Octet { seq(8, k requires 0 <= k < 8 => s <= k && a[k - s]) }

  function Shr(a: Octet, s: nat): Octet { seq(8, k requires 0 <= k < 8 => k + s < 8 && a[k + s]) }

  // CO_BIT(w) - 1: the low `w` bits set.
  function Mask(w: nat): Octet { seq(8, k requires 0 <= k < 8 => k < w) }

  function Num(b: seq<bool>): nat {
    if b == [] then 0 else (if b[0] then 1 else 0) + 2 * Num(b[1..])
  }

  function Pow2(n: nat): (r: nat)
    ensures r >= 1
  {
    if n == 0 then 1 else 2 * Pow2(n - 1)
  }

  // ---------- Fields in a flat sequence of bits ----------

  function FlatBit(a: seq<Octet>, p: nat): bool
    requires p < 8 * |a|
  {
    a[p / 8][p % 8]
  }

  predicate IsField(a: seq<Octet>, lsb: nat, width: nat) {
    1 <= width <= 8 && lsb + width <= 8 * |a|
  }

  /** The value of a field: from one byte, or the low part of it from one byte and the rest from the next. */
  function ValGet(a: seq<Octet>, lsb: nat, width: nat): Octet
    requires IsField(a, lsb, width)
  {
    var l, m := lsb / 8, (lsb + width - 1) / 8;
    var shift := lsb % 8;
    if m == l then And(Shr(a[l], shift), Mask(width))
    else
      var low := m * 8 - lsb;
      Or(And(Shr(a[l], shift), Mask(low)), Shl(And(a[m], Mask(width - low)), low))
  }

  /** Bit k of the value is bit lsb + k of the sequence, and bits beyond the width are zero. */
  lemma ValGetBits(a: seq<Octet>, lsb: nat, width: nat, k: nat)
    requires IsField(a, lsb, width) && k < 8
    ensures ValGet(a, lsb, width)[k] == (k < width && FlatBit(a, lsb + k))
  {
    var l, m, shift := lsb / 8, (lsb + width - 1) / 8, lsb % 8;
    Place(lsb, k);
    if m == l {
      var r := And(Shr(a[l], shift), Mask(width));
      assert r[k] == (k < width && k + shift < 8 && a[l][k + shift]);
    } else {
      var low := m * 8 - lsb;
      assert low == 8 - shift;
      var x, y := And(Shr(a[l], shift), Mask(low)), And(a[m], Mask(width - low));
      assert x[k] == (k < low && a[l][k + shift]);
      assert Shl(y, low)[k] == (low <= k && k < width && a[m][k - low]);
    }
  }

  // The byte and the bit in it that position lsb + k falls on.
  lemma Place(lsb: nat, k: nat)
    requires k < 8
    ensures (lsb + k) / 8 == lsb / 8 + (if lsb % 8 + k < 8 then 0 else 1)
    ensures (lsb + k) % 8 == lsb % 8 + k - (if lsb % 8 + k < 8 then 0 else 8)
  {
  }

  /** Bits [lsb, lsb + width) of `b` are the low bits of `v`; every other bit is as in `a`. */
  predicate FieldSet(a: seq<Octet>, b: seq<Octet>, lsb: nat, width: nat, v: Octet)
    requires IsField(a, lsb, width)
  {
    |b| == |a| && forall p :: 0 <= p < 8 * |a| ==> FlatBit(b, p) == if lsb <= p < lsb + width then v[p - lsb] else FlatBit(a, p)
  }

  // A byte with the `width` bits at `shift` replaced by the low bits of `v`.
  function Patch(b: Octet, shift: nat, width: nat, v: Octet): Octet {
    Or(And(b, Not(Shl(Mask(width), shift))), Shl(And(v, Mask(width)), shift))
  }

  lemma OneByteSet(a: seq<Octet>, lsb: nat, width: nat, v: Octet)
    requires IsField(a, lsb, width) && lsb / 8 == (lsb + width - 1) / 8
    ensures FieldSet(a, a[lsb / 8 := Patch(a[lsb / 8], lsb % 8, width, v)], lsb, width, v)
  {
    var l, shift := lsb / 8, lsb % 8;
    var b := a[l := Patch(a[l], shift, width, v)];
    forall p | 0 <= p < 8 * |a| ensures FlatBit(b, p) == if lsb <= p < lsb + width then v[p - lsb] else FlatBit(a, p) {
      if p / 8 == l { assert p - lsb == p % 8 - shift; }
    }
  }

  lemma TwoBytesSet(a: seq<Octet>, lsb: nat, width: nat, v: Octet)
    requires IsField(a, lsb, width) && lsb / 8 != (lsb + width - 1) / 8
    ensures var l, low := lsb / 8, (lsb / 8 + 1) * 8 - lsb;
            FieldSet(a, a[l := Patch(a[l], lsb % 8, low, v)][l + 1 := Patch(a[l + 1], 0, width - low, Shr(v, low))], lsb, width, v)
  {
    var l, low := lsb / 8, (lsb / 8 + 1) * 8 - lsb;
    var b := a[l := Patch(a[l], lsb % 8, low, v)][l + 1 := Patch(a[l + 1], 0, width - low, Shr(v, low))];
    forall p | 0 <= p < 8 * |a| ensures FlatBit(b, p) == if lsb <= p < lsb + width then v[p - lsb] else FlatBit(a, p) {
      if p / 8 == l {
        assert p - lsb == p % 8 - lsb % 8;
      } else if p / 8 == l + 1 {
        assert p - lsb == p % 8 + low;
      }
    }
  }

  /** Writes a field; nothing else in the array changes, also when the field straddles two bytes. */
  method ValSet(a: array<Octet>, lsb: nat, width: nat, v: Octet)
    requires IsField(a[..], lsb, width)
    modifies a
    ensures FieldSet(old(a[..]), a[..], lsb, width, v)
  {
    hide And, Or, Not, Shl, Shr, Mask, FlatBit;
    var l, m := lsb / 8, (lsb + width - 1) / 8;
    var shift := lsb % 8;
    if m == l {
      OneByteSet(a[..], lsb, width, v);
      var mask := Mask(width);
      a[l] := And(a[l], Not(Shl(mask, shift)));
      a[l] := Or(a[l], Shl(And(v, mask), shift));
      assert a[..] == old(a[..])[l := Patch(old(a[l]), shift, width, v)];
    } else {
      TwoBytesSet(a[..], lsb, width, v);
      var low := m * 8 - lsb;
      var lMask, mMask := Mask(low), Mask(width - low);
      a[l] := And(a[l], Not(Shl(lMask, shift)));
      a[m] := And(a[m], Not(mMask));
      a[l] := Or(a[l], Shl(And(v, lMask), shift));
      a[m] := Or(a[m], And(Shr(v, low), mMask));
      ShlZero(mMask);
      ShlZero(And(Shr(v, low), mMask));
      assert a[..] == old(a[..])[l := Patch(old(a[l]), shift, low, v)][m := Patch(old(a[m]), 0, width - low, Shr(v, low))];
    }
  }

  lemma ShlZero(b: Octet)
    ensures Shl(b, 0) == b
  {
  }

  /** Reading a field back after writing it gives the value's low `width` bits. */
  lemma GetAfterSet(a: seq<Octet>, b: seq<Octet>, lsb: nat, width: nat, v: Octet)
    requires IsField(a, lsb, width) && FieldSet(a, b, lsb, width, v)
    ensures ValGet(b, lsb, width) == And(v, Mask(width))
  {
    hide ValGet, FlatBit;
    forall k | 0 <= k < 8 ensures ValGet(b, lsb, width)[k] == And(v, Mask(width))[k] {
      ValGetBits(b, lsb, width, k);
    }
  }

  /** Writing one field does not disturb a disjoint one, in the same byte or not. */
  lemma DisjointFieldsIndependent(a: seq<Octet>, b: seq<Octet>, lsb: nat, width: nat, v: Octet, lsb': nat, width': nat)
    requires IsField(a, lsb, width) && FieldSet(a, b, lsb, width, v)
    requires IsField(a, lsb', width') && (lsb' + width' <= lsb || lsb + width <= lsb')
    ensures ValGet(b, lsb', width') == ValGet(a, lsb', width')
  {
    hide ValGet, FlatBit;
    forall k | 0 <= k < 8 ensures ValGet(b, lsb', width')[k] == ValGet(a, lsb', width')[k] {
      ValGetBits(b, lsb', width', k);
      ValGetBits(a, lsb', width', k);
    }
  }

  // ---------- As numbers ----------

  lemma {:induction false} NumBelow(b: seq<bool>)
    ensures Num(b) < Pow2(|b|)
  {
    if b != [] { NumBelow(b[1..]); }
  }

  lemma {:induction false} NumSplit(b: seq<bool>, w: nat)
    requires w <= |b|
    ensures Num(b) == Num(b[..w]) + Pow2(w) * Num(b[w..])
  {
    if w == 0 {
      assert b[0..] == b;
    } else {
      NumSplit(b[1..], w - 1);
      assert b[..w][1..] == b[1..][..w - 1] && b[1..][w - 1..] == b[w..];
      Twice(Pow2(w - 1), Num(b[w..]));
    }
  }

  lemma Twice(p: nat, x: nat)
    ensures 2 * (p * x) == (2 * p) * x
  {
  }

  lemma {:induction false} NumZeros(b: seq<bool>)
    requires forall k :: 0 <= k < |b| ==> !b[k]
    ensures Num(b) == 0
  {
    if b != [] { NumZeros(b[1..]); }
  }

  /** The mask of `w` low bits is the number 2^w - 1. */
  lemma {:induction false} MaskNumber(w: nat)
    requires w <= 8
    ensures Num(Mask(w)) == Pow2(w) - 1
  {
    NumSplit(Mask(w), w);
    NumOnes(Mask(w)[..w]);
    NumZeros(Mask(w)[w..]);
  }

  lemma {:induction false} NumOnes(b: seq<bool>)
    requires forall k :: 0 <= k < |b| ==> b[k]
    ensures Num(b) == Pow2(|b|) - 1
  {
    if b != [] { NumOnes(b[1..]); }
  }

  lemma ModUnique(x: nat, q: nat, r: nat, p: nat)
    requires r < p && x == r + p * q
    ensures x % p == r
  {
    var d := x / p;
    assert x == p * d + x % p;
    if d < q {
      assert p * (q - d) == p * q - p * d;
      Monotone(p, 1, q - d);
    } else if d > q {
      assert p * (d - q) == p * d - p * q;
      Monotone(p, 1, d - q);
    }
  }

  lemma Monotone(p: nat, x: nat, y: nat)
    requires x <= y
    ensures p * x <= p * y
  {
  }

  /** Masking with `width` low bits is reduction modulo 2^width; so a field that was written reads back
      as the value modulo 2^width. */
  lemma MaskIsModulo(v: Octet, width: nat)
    requires 1 <= width <= 8
    ensures Num(And(v, Mask(width))) == Num(v) % Pow2(width)
  {
    hide Num, Pow2, And, Mask;
    var r := And(v, Mask(width));
    MaskedParts(v, width);
    NumSplit(v, width);
    NumSplit(r, width);
    NumZeros(r[width..]);
    NumBelow(v[..width]);
    ModUnique(Num(v), Num(v[width..]), Num(v[..width]), Pow2(width));
    TimesZero(Pow2(width));
  }

  lemma MaskedParts(v: Octet, width: nat)
    requires 1 <= width <= 8
    ensures var r := And(v, Mask(width));
            r[..width] == v[..width] && forall k :: 0 <= k < 8 - width ==> !r[width..][k]
  {
  }

  lemma TimesZero(p: nat)
    ensures p * 0 == 0
  {
  }

  lemma ReadBackModulo(a: seq<Octet>, b: seq<Octet>, lsb: nat, width: nat, v: Octet)
    requires IsField(a, lsb, width) && FieldSet(a, b, lsb, width, v)
    ensures Num(ValGet(b, lsb, width)) == Num(v) % Pow2(width)
  {
    GetAfterSet(a, b, lsb, width, v);
    MaskIsModulo(v, width);
  }

  // ---------- Single bits ----------

  const ZERO: Octet := [false, false, false, false, false, false, false, false]
  const ONE: Octet := [true, false, false, false, false, false, false, false]

  predicate BitIsSet(a: seq<Octet>, pos: nat)
    requires pos < 8 * |a|
  {
    And(a[pos / 8], Shl(ONE, pos % 8)) != ZERO
  }

  lemma BitIsSetFlat(a: seq<Octet>, pos: nat)
    requires pos < 8 * |a|
    ensures BitIsSet(a, pos) == FlatBit(a, pos)
  {
    var r := And(a[pos / 8], Shl(ONE, pos % 8));
    assert r[pos % 8] == FlatBit(a, pos);
    assert forall k :: 0 <= k < 8 && k != pos % 8 ==> !r[k];
    assert !FlatBit(a, pos) ==> r == ZERO;
    assert !ZERO[pos % 8];
  }

  method BitSet(a: array<Octet>, pos: nat)
    requires pos < 8 * a.Length && pos < 256
    modifies a
    ensures FieldSet(old(a[..]), a[..], pos, 1, ONE)
  {
    OneByteSet(a[..], pos, 1, ONE);
    var b := a[pos / 8];
    a[pos / 8] := Or(b, Shl(ONE, pos % 8));
    assert Or(b, Shl(ONE, pos % 8)) == Patch(b, pos % 8, 1, ONE);
    assert a[..] == old(a[..])[pos / 8 := Patch(b, pos % 8, 1, ONE)];
  }

  method BitClr(a: array<Octet>, pos: nat)
    requires pos < 8 * a.Length && pos < 256
    modifies a
    ensures FieldSet(old(a[..]), a[..], pos, 1, ZERO)
  {
    OneByteSet(a[..], pos, 1, ZERO);
    var b := a[pos / 8];
    a[pos / 8] := And(b, Not(Shl(ONE, pos % 8)));
    assert And(b, Not(Shl(ONE, pos % 8))) == Patch(b, pos % 8, 1, ZERO);
    assert a[..] == old(a[..])[pos / 8 := Patch(b, pos % 8, 1, ZERO)];
  }
}
