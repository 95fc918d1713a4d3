/**
 * Unsigned 32-bit arithmetic as performed by OpIAdd / OpIMul on a 32-bit
 * unsigned integer type, and the linear (X-fastest) cell index that the
 * compute wrapper derives from the invocation coordinates.
 */
module Uint32 {

  const U32: nat := 0x1_0000_0000

  /** Wrapping 32-bit addition. */
  function Add32(a: nat, b: nat): nat
  {
    (a + b) % U32
  }

  /** Wrapping 32-bit multiplication. */
  function Mul32(a: nat, b: nat): nat
  {
    (a * b) % U32
  }

  /**
   * The flattened buffer offset of grid cell (x, y, z) in a grid whose
   * global extents along X and Y are gx and gy, reduced to 32 bits.
   */
  function LinearIndex(x: nat, y: nat, z: nat, gx: nat, gy: nat): nat
  {
    (x + gx * (y + gy * z)) % U32
  }

  /** The inverse of the linear index inside a gx * gy * gz grid. */
  function Unflatten(i: nat, gx: nat, gy: nat): (nat, nat, nat)
    requires gx > 0 && gy > 0
  {
    (i % gx, (i / gx) % gy, (i / gx) / gy)
  }

  lemma ModAddMultiple(a: nat, q: nat)
    ensures (a + q * U32) % U32 == a % U32
  {
  }

  lemma AddModRight(a: nat, b: nat)
    ensures (a + b % U32) % U32 == (a + b) % U32
  {
    var q := b / U32;
    assert b == q * U32 + b % U32;
    ModAddMultiple(a + b % U32, q);
  }

  lemma MulModRight(a: nat, b: nat)
    ensures (a * (b % U32)) % U32 == (a * b) % U32
  {
    var q := b / U32;
    var r := b % U32;
    assert b == q * U32 + r;
    assert a * b == a * r + (a * q) * U32 by {
      assert a * (q * U32 + r) == a * (q * U32) + a * r;
    }
    ModAddMultiple(a * r, a * q);
  }

  /**
   * The instruction sequence the wrapper emits (OpIMul, OpIAdd, OpIMul,
   * OpIAdd on 32-bit operands) computes the linear index modulo 2^32.
   */
  lemma WrappedIndexIsLinearIndex(x: nat, y: nat, z: nat, gx: nat, gy: nat)
    ensures Add32(Mul32(gx, Add32(y, Mul32(gy, z))), x) == LinearIndex(x, y, z, gx, gy)
  {
    var rows := Mul32(gy, z);
    AddModRight(y, gy * z);
    assert Add32(y, rows) == (y + gy * z) % U32;
    MulModRight(gx, y + gy * z);
    assert Mul32(gx, Add32(y, rows)) == (gx * (y + gy * z)) % U32;
    AddModRight(x, gx * (y + gy * z));
    assert Add32(Mul32(gx, Add32(y, rows)), x) == (gx * (y + gy * z) % U32 + x) % U32;
  }

  lemma MulMonotone(a: nat, b: nat, c: nat)
    requires b <= c
    ensures a * b <= a * c
  {
    assert a * c == a * b + a * (c - b);
  }

  /**
   * Inside a gx * gy * gz grid the index is the cell's exact offset and lies
   * below the number of cells.
   */
  lemma LinearIndexInGrid(x: nat, y: nat, z: nat, gx: nat, gy: nat, gz: nat)
    requires x < gx && y < gy && z < gz
    requires gx * gy * gz <= U32
    ensures x + gx * (y + gy * z) < gx * gy * gz
    ensures LinearIndex(x, y, z, gx, gy) == x + gx * (y + gy * z)
  {
    MulMonotone(gy, z, gz - 1);
    assert gy * (gz - 1) == gy * gz - gy;
    var row := y + gy * z;
    assert row <= gy * gz - 1;
    MulMonotone(gx, row, gy * gz - 1);
    assert gx * (gy * gz - 1) == gx * (gy * gz) - gx;
    assert gx * (gy * gz) == gx * gy * gz;
  }

  lemma DivModUnique(n: nat, d: nat, q: nat, r: nat)
    requires 0 < d && r < d && n == q * d + r
    ensures n / d == q && n % d == r
  {
    var q', r' := n / d, n % d;
    assert n == q' * d + r';
    if q' < q {
      MulMonotone(d, q' + 1, q);
    } else if q < q' {
      MulMonotone(d, q + 1, q');
    }
  }

  /**
   * Distinct cells of a grid that fits in 32 bits receive distinct indices:
   * unflattening the index gives back the cell's coordinates.
   */
  lemma UnflattenLinearIndex(x: nat, y: nat, z: nat, gx: nat, gy: nat, gz: nat)
    requires x < gx && y < gy && z < gz
    requires gx * gy * gz <= U32
    ensures Unflatten(LinearIndex(x, y, z, gx, gy), gx, gy) == (x, y, z)
  {
    LinearIndexInGrid(x, y, z, gx, gy, gz);
    var i := LinearIndex(x, y, z, gx, gy);
    var row := y + gy * z;
    assert i == row * gx + x;
    DivModUnique(i, gx, row, x);
    assert row == z * gy + y;
    DivModUnique(row, gy, z, y);
  }

  /** Two cells of the same grid share an index only if they are the same cell. */
  lemma LinearIndexInjective(x: nat, y: nat, z: nat, x': nat, y': nat, z': nat, gx: nat, gy: nat, gz: nat)
    requires x < gx && y < gy && z < gz
    requires x' < gx && y' < gy && z' < gz
    requires gx * gy * gz <= U32
    requires LinearIndex(x, y, z, gx, gy) == LinearIndex(x', y', z', gx, gy)
    ensures x == x' && y == y' && z == z'
  {
    UnflattenLinearIndex(x, y, z, gx, gy, gz);
    UnflattenLinearIndex(x', y', z', gx, gy, gz);
  }
}
