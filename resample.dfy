/**
 * `resample_z_linear`: linear resampling of a Z-stack along its depth axis
 * (one definition serves both inference-preparation scripts, which carry
 * identical copies). Voxel values are exact reals; an integer stack holds
 * integral values and its result is rounded half to even and clipped to
 * `[0, maxval]`, `maxval` being the largest value of its integer dtype.
 */
module Resample {
  import opened Wrappers
  import opened Numeric

  /** One depth plane, indexed `[row][column]`. */
  type Plane = seq<seq<real>>

  /** A stack of planes, indexed `[depth][row][column]`. */
  type Stack = seq<Plane>

  /** The stack is a NumPy array of shape `(|s|, rows, cols)`. */
  predicate Shaped(s: Stack, rows: nat, cols: nat) {
    forall i :: 0 <= i < |s| ==> |s[i]| == rows && forall y :: 0 <= y < rows ==> |s[i][y]| == cols
  }

  datatype Dtype = IntegerType(maxval: nat) | FloatType

  /** `stack[z0]` on a stack of depth 0 raises `IndexError`. */
  datatype ResampleError = EmptyStack

  /**
   * Element `i` of `np.linspace(0, z - 1, n)`: the points run from 0, a single
   * point is 0, and a one-plane stack is sampled at 0 only. `PositionBounds`
   * and `LastPosition` give the range and the far end.
   */
  function Position(i: nat, z: nat, n: nat): (p: real)
    requires 1 <= z && 1 <= n
    ensures n == 1 || i == 0 || z == 1 ==> p == 0.0
  {
    if n == 1 then 0.0 else (i * (z - 1)) as real / (n - 1) as real
  }

  lemma PositionBounds(i: nat, z: nat, n: nat)
    requires 1 <= z && i < n
    ensures 0.0 <= Position(i, z, n) <= (z - 1) as real
  {
    if n > 1 {
      var a, d := i * (z - 1), n - 1;
      assert a <= d * (z - 1) by { MulLe(i, d, z - 1); }
      assert 0 <= a;
      DivLe(a, d, z - 1);
    }
  }

  /** Multiplication by a natural keeps `<=`; a separate lemma so the nonlinear step is stated once, for the callers that need it. */
  lemma MulLe(i: nat, d: nat, c: nat)
    requires i <= d
    ensures i * c <= d * c
  {}

  /** A quotient `a / d` with `a <= d * c` lies in `[0, c]`; kept apart from `PositionBounds` for the same reason. */
  lemma DivLe(a: nat, d: nat, c: nat)
    requires 0 < d && a <= d * c
    ensures 0.0 <= a as real / d as real <= c as real
  {
    var q := a as real / d as real;
    assert q * d as real == a as real;
    assert (d * c) as real == d as real * c as real;
  }

  /** The two source planes and the weight of the upper one for output plane `i`. */
  datatype Sample = Sample(z0: nat, z1: nat, w: real)

  function SampleAt(i: nat, z: nat, n: nat): (s: Sample)
    requires 1 <= z && i < n
    ensures s.z0 <= z - 1 && s.z1 == Min(s.z0 + 1, z - 1) && s.z0 <= s.z1
    ensures 0.0 <= s.w < 1.0
    ensures s.z0 as real + s.w == Position(i, z, n)
  {
    PositionBounds(i, z, n);
    var p := Position(i, z, n);
    var f := p.Floor;
    Sample(f, Min(f + 1, z - 1), p - f as real)
  }

  /** `(1 - w) * a + w * b`. */
  function Interp(a: real, b: real, w: real): real { (1.0 - w) * a + w * b }

  /**
   * One output voxel: the blend itself for floating data; for integer data the
   * blend rounded half to even and clipped, an integer in `[0, maxval]`.
   */
  function Voxel(dtype: Dtype, a: real, b: real, w: real): (v: real)
    ensures dtype.IntegerType? ==> v == v.Floor as real && 0.0 <= v <= dtype.maxval as real
    ensures dtype.FloatType? && 0.0 <= w <= 1.0 ==> (a <= b ==> a <= v <= b) && (b <= a ==> b <= v <= a)
  {
    match dtype
    case IntegerType(m) => Clamp(RoundHalfEven(Interp(a, b, w)), 0, m) as real
    case FloatType =>
      if 0.0 <= w <= 1.0 then InterpBetween(a, b, w); Interp(a, b, w) else Interp(a, b, w)
  }

  function BlendPlanes(p0: Plane, p1: Plane, w: real, dtype: Dtype, rows: nat, cols: nat): (r: Plane)
    requires |p0| == rows && |p1| == rows
    requires forall y :: 0 <= y < rows ==> |p0[y]| == cols && |p1[y]| == cols
    ensures |r| == rows && forall y :: 0 <= y < rows ==> |r[y]| == cols
  {
    seq(rows, y requires 0 <= y < rows =>
      seq(cols, x requires 0 <= x < cols => Voxel(dtype, p0[y][x], p1[y][x], w)))
  }

  /** `resample_z_linear(stack, new_z)` for a stack of shape `(|stack|, rows, cols)`. */
  function ResampleZLinear(stack: Stack, rows: nat, cols: nat, newZ: int, dtype: Dtype): (r: Result<Stack, ResampleError>)
    requires Shaped(stack, rows, cols)
    ensures r.Err? <==> |stack| == 0 && newZ != 0
    ensures newZ == |stack| ==> r == Ok(stack)
    ensures r.Ok? ==> Shaped(r.value, rows, cols)
    ensures r.Ok? && |stack| > 0 ==> |r.value| == Max(1, newZ)
  {
    var z := |stack|;
    if newZ == z then Ok(stack)
    else if z == 0 then Err(EmptyStack)
    else
      var n := Max(1, newZ);
      Ok(seq(n, i requires 0 <= i < n =>
        var s := SampleAt(i, z, n);
        BlendPlanes(stack[s.z0], stack[s.z1], s.w, dtype, rows, cols)))
  }

  /** Each output voxel blends the same voxel of the two planes around its sample position. */
  lemma ResampleVoxel(stack: Stack, rows: nat, cols: nat, newZ: int, dtype: Dtype, i: nat, y: nat, x: nat)
    requires Shaped(stack, rows, cols) && |stack| > 0 && newZ != |stack|
    requires i < Max(1, newZ) && y < rows && x < cols
    ensures var r := ResampleZLinear(stack, rows, cols, newZ, dtype).value;
            var s := SampleAt(i, |stack|, Max(1, newZ));
            r[i][y][x] == Voxel(dtype, stack[s.z0][y][x], stack[s.z1][y][x], s.w)
  {}

  lemma InterpBetween(a: real, b: real, w: real)
    requires 0.0 <= w <= 1.0
    ensures a <= b ==> a <= Interp(a, b, w) <= b
    ensures b <= a ==> b <= Interp(a, b, w) <= a
  {
    assert Interp(a, b, w) - a == w * (b - a);
    assert Interp(a, b, w) - b == (1.0 - w) * (a - b);
    if a <= b {
      MulNonneg(w, b - a);
      MulNonneg(1.0 - w, b - a);
    } else {
      MulNonneg(w, a - b);
      MulNonneg(1.0 - w, a - b);
    }
  }

  /** A product of non-negative reals is non-negative; kept apart so `InterpBetween` sees the nonlinear fact only where it asks for it. */
  lemma MulNonneg(u: real, v: real)
    requires 0.0 <= u && 0.0 <= v
    ensures 0.0 <= u * v
  {}

  predicate Integral(v: real) { v == v.Floor as real }

  /** Every voxel of an integer stack is an integer within `[0, maxval]`. */
  predicate IntegerValues(s: Stack, rows: nat, cols: nat, maxval: nat)
    requires Shaped(s, rows, cols)
  {
    forall i, y, x :: 0 <= i < |s| && 0 <= y < rows && 0 <= x < cols ==>
      Integral(s[i][y][x]) && 0.0 <= s[i][y][x] <= maxval as real
  }

  lemma {:induction false} IntegerVoxelBetween(a: real, b: real, w: real, m: nat)
    requires Integral(a) && Integral(b) && 0.0 <= a <= m as real && 0.0 <= b <= m as real
    requires 0.0 <= w <= 1.0
    ensures var v := Voxel(IntegerType(m), a, b, w);
            Integral(v) && (a <= b ==> a <= v <= b) && (b <= a ==> b <= v <= a)
  {
    InterpBetween(a, b, w);
    var lo, hi := if a <= b then a.Floor else b.Floor, if a <= b then b.Floor else a.Floor;
    RoundStaysBetween(Interp(a, b, w), lo, hi);
  }

  /**
   * For an integer stack whose values fit its dtype, every output voxel is an
   * integer of the dtype's range lying between the two source voxels it blends.
   */
  lemma {:induction false} ResampleIntegerBounds(stack: Stack, rows: nat, cols: nat, newZ: int, m: nat, i: nat, y: nat, x: nat)
    requires Shaped(stack, rows, cols) && IntegerValues(stack, rows, cols, m)
    requires |stack| > 0 && i < Max(1, newZ) && y < rows && x < cols
    ensures var r := ResampleZLinear(stack, rows, cols, newZ, IntegerType(m)).value;
            var s := SampleAt(i, |stack|, Max(1, newZ));
            var a, b := stack[s.z0][y][x], stack[s.z1][y][x];
            && Integral(r[i][y][x]) && 0.0 <= r[i][y][x] <= m as real
            && (a <= b ==> a <= r[i][y][x] <= b)
            && (b <= a ==> b <= r[i][y][x] <= a)
  {
    var s := SampleAt(i, |stack|, Max(1, newZ));
    if newZ == |stack| {
      // Identity fast path: the output voxel is the input voxel, and it is the lower neighbour.
      IdentityPosition(i, |stack|);
      assert s.z0 == i;
    } else {
      ResampleVoxel(stack, rows, cols, newZ, IntegerType(m), i, y, x);
      IntegerVoxelBetween(stack[s.z0][y][x], stack[s.z1][y][x], s.w, m);
    }
  }

  lemma IdentityPosition(i: nat, n: nat)
    requires i < n
    ensures Position(i, n, n) == i as real
  {
    if n > 1 {
      assert (i * (n - 1)) as real == i as real * (n - 1) as real;
    }
  }

  /** Where `(z - 1)` is a multiple of `(n - 1)`, output plane `i` is source plane `i * (z - 1) / (n - 1)` exactly. */
  lemma {:induction false} ResampleOnGrid(stack: Stack, rows: nat, cols: nat, newZ: int, dtype: Dtype, i: nat)
    requires Shaped(stack, rows, cols) && |stack| > 0 && newZ >= 2 && newZ != |stack|
    requires (|stack| - 1) % (newZ - 1) == 0 && i < newZ
    requires dtype.IntegerType? ==> IntegerValues(stack, rows, cols, dtype.maxval)
    ensures var r := ResampleZLinear(stack, rows, cols, newZ, dtype).value;
            i * ((|stack| - 1) / (newZ - 1)) < |stack| &&
            r[i] == stack[i * ((|stack| - 1) / (newZ - 1))]
  {
    var j := GridPosition(i, |stack|, newZ);
    EndpointPlane(stack, rows, cols, newZ, dtype, i, j);
  }

  /** On a grid where `n - 1` divides `z - 1`, sample position `i` is the whole number `i * (z - 1) / (n - 1)`. */
  lemma GridPosition(i: nat, z: nat, n: nat) returns (j: nat)
    requires 1 <= z && 2 <= n && (z - 1) % (n - 1) == 0 && i < n
    ensures j == i * ((z - 1) / (n - 1)) && j < z
    ensures Position(i, z, n) == j as real
  {
    var q := (z - 1) / (n - 1);
    assert z - 1 == q * (n - 1);
    j := i * q;
    assert i * (z - 1) == j * (n - 1);
    assert (j * (n - 1)) as real == j as real * (n - 1) as real;
    MulLe(i, n - 1, q);
  }

  /** The first output plane is the first source plane and, for `newZ > 1`, the last is the last. */
  lemma {:induction false} ResampleEndpoints(stack: Stack, rows: nat, cols: nat, newZ: int, dtype: Dtype)
    requires Shaped(stack, rows, cols) && |stack| > 0
    requires dtype.IntegerType? ==> IntegerValues(stack, rows, cols, dtype.maxval)
    ensures var r := ResampleZLinear(stack, rows, cols, newZ, dtype).value;
            r[0] == stack[0] && (newZ > 1 ==> r[newZ - 1] == stack[|stack| - 1])
  {
    var z, n := |stack|, Max(1, newZ);
    if newZ == z { return; }
    var r := ResampleZLinear(stack, rows, cols, newZ, dtype).value;
    EndpointPlane(stack, rows, cols, newZ, dtype, 0, 0);
    if newZ > 1 {
      LastPosition(z, n);
      EndpointPlane(stack, rows, cols, newZ, dtype, n - 1, z - 1);
    }
  }

  lemma LastPosition(z: nat, n: nat)
    requires 1 <= z && 2 <= n
    ensures Position(n - 1, z, n) == (z - 1) as real
  {
    assert ((n - 1) * (z - 1)) as real == (n - 1) as real * (z - 1) as real;
  }

  /** Output plane `i` whose sample position is the whole number `j` equals source plane `j`. */
  lemma EndpointPlane(stack: Stack, rows: nat, cols: nat, newZ: int, dtype: Dtype, i: nat, j: nat)
    requires Shaped(stack, rows, cols) && |stack| > 0 && newZ != |stack|
    requires dtype.IntegerType? ==> IntegerValues(stack, rows, cols, dtype.maxval)
    requires i < Max(1, newZ) && j < |stack| && Position(i, |stack|, Max(1, newZ)) == j as real
    ensures ResampleZLinear(stack, rows, cols, newZ, dtype).value[i] == stack[j]
  {
    var r := ResampleZLinear(stack, rows, cols, newZ, dtype).value;
    var s := SampleAt(i, |stack|, Max(1, newZ));
    assert s.z0 == j && s.w == 0.0;
    forall y, x | 0 <= y < rows && 0 <= x < cols
      ensures r[i][y][x] == stack[j][y][x]
    {
      ResampleVoxel(stack, rows, cols, newZ, dtype, i, y, x);
      var a := stack[j][y][x];
      assert Interp(a, stack[s.z1][y][x], 0.0) == a;
      if dtype.IntegerType? {
        RoundOfInteger(a.Floor);
      }
    }
    assert forall y :: 0 <= y < rows ==> r[i][y] == stack[j][y];
  }
}
