/** Dense real-valued arrays as the denoiser uses them: H×W planes and
    H×W×C channel-stacked fields (the channel vector of a pixel is the last
    axis, as `stack![Axis(2), ..]` lays it out), their element-wise
    arithmetic, channel slicing and stacking, and the plain inner products
    in which the adjointness of the difference operators is stated. */
module Grid {

  /** An H×W array in row-major order: `a[i][j]` is row i, column j. */
  type Plane = seq<seq<real>>

  /** An H×W×C array: `f[i][j]` is the channel vector of pixel (i, j). */
  type Field = seq<seq<seq<real>>>

  /** Number of columns; an array without rows carries no width. */
  function Width<T>(a: seq<seq<T>>): nat
  {
    if |a| == 0 then 0 else |a[0]|
  }

  /** Number of channels; a field without pixels carries no depth. */
  function Depth(f: Field): nat
  {
    if |f| == 0 || |f[0]| == 0 then 0 else |f[0][0]|
  }

  predicate IsPlane(a: Plane, h: nat, w: nat)
  {
    |a| == h && forall i :: 0 <= i < h ==> |a[i]| == w
  }

  predicate IsField(f: Field, h: nat, w: nat, c: nat)
  {
    |f| == h && forall i :: 0 <= i < h ==> IsPlane(f[i], w, c)
  }

  /** A rectangular array with at least one row and one column: what the
      circular shifts by one position accept along both axes. */
  predicate IsImage(u: Plane)
  {
    |u| > 0 && Width(u) > 0 && IsPlane(u, |u|, Width(u))
  }

  /** A non-empty H×W×c field. */
  predicate IsVectorField(f: Field, c: nat)
  {
    |f| > 0 && Width(f) > 0 && IsField(f, |f|, Width(f), c)
  }

  predicate SameShape<T, U>(a: seq<seq<T>>, b: seq<seq<U>>)
  {
    |a| == |b| && forall i :: 0 <= i < |a| ==> |a[i]| == |b[i]|
  }

  predicate SameShape3(f: Field, g: Field)
  {
    |f| == |g| && forall i :: 0 <= i < |f| ==> SameShape(f[i], g[i])
  }

  /** `Array3::zeros((h, w, c))`. */
  function ZeroField(h: nat, w: nat, c: nat): (z: Field)
    ensures IsField(z, h, w, c)
  {
    seq(h, _ => seq(w, _ => seq(c, _ => 0.0)))
  }

  predicate IsZeroField(f: Field)
  {
    forall i, j, k :: 0 <= i < |f| && 0 <= j < |f[i]| && 0 <= k < |f[i][j]| ==> f[i][j][k] == 0.0
  }

  /** Every pixel of `a` holds the value `v`. */
  predicate IsConstant(a: Plane, v: real)
  {
    forall i, j :: 0 <= i < |a| && 0 <= j < |a[i]| ==> a[i][j] == v
  }

  // Element-wise arithmetic on vectors, lifted row by row to planes and fields.

  function AddV(x: seq<real>, y: seq<real>): (r: seq<real>)
    requires |x| == |y|
    ensures |r| == |x|
  {
    seq(|x|, k requires 0 <= k < |x| => x[k] + y[k])
  }

  function SubV(x: seq<real>, y: seq<real>): (r: seq<real>)
    requires |x| == |y|
    ensures |r| == |x|
  {
    seq(|x|, k requires 0 <= k < |x| => x[k] - y[k])
  }

  function NegV(x: seq<real>): (r: seq<real>)
    ensures |r| == |x|
  {
    seq(|x|, k requires 0 <= k < |x| => -x[k])
  }

  function ScaleV(s: real, x: seq<real>): (r: seq<real>)
    ensures |r| == |x|
  {
    seq(|x|, k requires 0 <= k < |x| => s * x[k])
  }

  function DivV(x: seq<real>, d: real): (r: seq<real>)
    requires d != 0.0
    ensures |r| == |x|
  {
    seq(|x|, k requires 0 <= k < |x| => x[k] / d)
  }

  function AddP(a: Plane, b: Plane): (r: Plane)
    requires SameShape(a, b)
    ensures SameShape(r, a)
  {
    seq(|a|, i requires 0 <= i < |a| => AddV(a[i], b[i]))
  }

  function SubP(a: Plane, b: Plane): (r: Plane)
    requires SameShape(a, b)
    ensures SameShape(r, a)
  {
    seq(|a|, i requires 0 <= i < |a| => SubV(a[i], b[i]))
  }

  function NegP(a: Plane): (r: Plane)
    ensures SameShape(r, a)
  {
    seq(|a|, i requires 0 <= i < |a| => NegV(a[i]))
  }

  function ScaleP(s: real, a: Plane): (r: Plane)
    ensures SameShape(r, a)
  {
    seq(|a|, i requires 0 <= i < |a| => ScaleV(s, a[i]))
  }

  function DivP(a: Plane, d: real): (r: Plane)
    requires d != 0.0
    ensures SameShape(r, a)
  {
    seq(|a|, i requires 0 <= i < |a| => DivV(a[i], d))
  }

  function AddF(f: Field, g: Field): (r: Field)
    requires SameShape3(f, g)
    ensures SameShape3(r, f)
  {
    seq(|f|, i requires 0 <= i < |f| => AddP(f[i], g[i]))
  }

  function SubF(f: Field, g: Field): (r: Field)
    requires SameShape3(f, g)
    ensures SameShape3(r, f)
  {
    seq(|f|, i requires 0 <= i < |f| => SubP(f[i], g[i]))
  }

  function NegF(f: Field): (r: Field)
    ensures SameShape3(r, f)
  {
    seq(|f|, i requires 0 <= i < |f| => NegP(f[i]))
  }

  function ScaleF(s: real, f: Field): (r: Field)
    ensures SameShape3(r, f)
  {
    seq(|f|, i requires 0 <= i < |f| => ScaleP(s, f[i]))
  }

  // Channel slicing `f.slice(s![.., .., c])` and `stack![Axis(2), ..]`.

  function ChannelRow(row: seq<seq<real>>, c: nat): (r: seq<real>)
    requires forall j :: 0 <= j < |row| ==> c < |row[j]|
    ensures |r| == |row|
  {
    seq(|row|, j requires 0 <= j < |row| => row[j][c])
  }

  function Channel(f: Field, c: nat): (r: Plane)
    requires forall i, j :: 0 <= i < |f| && 0 <= j < |f[i]| ==> c < |f[i][j]|
    ensures SameShape(r, f)
  {
    seq(|f|, i requires 0 <= i < |f| => ChannelRow(f[i], c))
  }

  /** A channel of a non-empty H×W×n field is itself a non-empty H×W plane. */
  lemma ChannelIsImage(f: Field, n: nat, c: nat)
    requires IsVectorField(f, n) && c < n
    ensures IsImage(Channel(f, c))
    ensures |Channel(f, c)| == |f| && Width(Channel(f, c)) == Width(f)
  {
  }

  function StackRow2(x: seq<real>, y: seq<real>): (r: seq<seq<real>>)
    requires |x| == |y|
    ensures IsPlane(r, |x|, 2)
  {
    seq(|x|, j requires 0 <= j < |x| => [x[j], y[j]])
  }

  function Stack2(x: Plane, y: Plane): (r: Field)
    requires SameShape(x, y)
    ensures SameShape(r, x)
    ensures forall i :: 0 <= i < |x| ==> IsPlane(r[i], |x[i]|, 2)
  {
    seq(|x|, i requires 0 <= i < |x| => StackRow2(x[i], y[i]))
  }

  function StackRow3(x: seq<real>, y: seq<real>, z: seq<real>): (r: seq<seq<real>>)
    requires |x| == |y| == |z|
    ensures IsPlane(r, |x|, 3)
  {
    seq(|x|, j requires 0 <= j < |x| => [x[j], y[j], z[j]])
  }

  function Stack3(x: Plane, y: Plane, z: Plane): (r: Field)
    requires SameShape(x, y) && SameShape(x, z)
    ensures SameShape(r, x)
    ensures forall i :: 0 <= i < |x| ==> IsPlane(r[i], |x[i]|, 3)
  {
    seq(|x|, i requires 0 <= i < |x| => StackRow3(x[i], y[i], z[i]))
  }

  // Plain inner products: over a vector, over the rows of a plane, and over
  // the rows, columns and channels of a field.

  function Dot(x: seq<real>, y: seq<real>): real
    requires |x| == |y|
  {
    if |x| == 0 then 0.0 else x[0] * y[0] + Dot(x[1..], y[1..])
  }

  function Dot2(a: Plane, b: Plane): real
    requires SameShape(a, b)
  {
    if |a| == 0 then 0.0 else Dot(a[0], b[0]) + Dot2(a[1..], b[1..])
  }

  function Dot3(f: Field, g: Field): real
    requires SameShape3(f, g)
  {
    if |f| == 0 then 0.0 else Dot2(f[0], g[0]) + Dot3(f[1..], g[1..])
  }

  // Two arrays with the same shape and the same elements are equal.

  lemma PlaneExt(a: Plane, b: Plane)
    requires SameShape(a, b)
    requires forall i, j :: 0 <= i < |a| && 0 <= j < |a[i]| ==> a[i][j] == b[i][j]
    ensures a == b
  {
    forall i | 0 <= i < |a| ensures a[i] == b[i] {
      assert forall j :: 0 <= j < |a[i]| ==> a[i][j] == b[i][j];
    }
  }

  lemma FieldExt(f: Field, g: Field)
    requires SameShape3(f, g)
    requires forall i, j :: 0 <= i < |f| && 0 <= j < |f[i]| ==> |f[i][j]| == |g[i][j]|
    requires forall i, j, k :: 0 <= i < |f| && 0 <= j < |f[i]| && 0 <= k < |f[i][j]| ==> f[i][j][k] == g[i][j][k]
    ensures f == g
  {
    forall i | 0 <= i < |f| ensures f[i] == g[i] {
      forall j | 0 <= j < |f[i]| ensures f[i][j] == g[i][j] {
        assert forall k :: 0 <= k < |f[i][j]| ==> f[i][j][k] == g[i][j][k];
      }
    }
  }

  // Inner products split over concatenations.

  lemma {:induction false} DotAppend(x1: seq<real>, x2: seq<real>, y1: seq<real>, y2: seq<real>)
    requires |x1| == |y1| && |x2| == |y2|
    ensures Dot(x1 + x2, y1 + y2) == Dot(x1, y1) + Dot(x2, y2)
  {
    if |x1| > 0 {
      assert (x1 + x2)[1..] == x1[1..] + x2;
      assert (y1 + y2)[1..] == y1[1..] + y2;
      DotAppend(x1[1..], x2, y1[1..], y2);
    } else {
      assert x1 + x2 == x2 && y1 + y2 == y2;
    }
  }

  lemma {:induction false} Dot2Append(a1: Plane, a2: Plane, b1: Plane, b2: Plane)
    requires SameShape(a1, b1) && SameShape(a2, b2)
    ensures SameShape(a1 + a2, b1 + b2)
    ensures Dot2(a1 + a2, b1 + b2) == Dot2(a1, b1) + Dot2(a2, b2)
  {
    if |a1| > 0 {
      assert (a1 + a2)[1..] == a1[1..] + a2;
      assert (b1 + b2)[1..] == b1[1..] + b2;
      Dot2Append(a1[1..], a2, b1[1..], b2);
    } else {
      assert a1 + a2 == a2 && b1 + b2 == b2;
    }
  }

  // Symmetry.

  lemma {:induction false} DotComm(x: seq<real>, y: seq<real>)
    requires |x| == |y|
    ensures Dot(x, y) == Dot(y, x)
  {
    if |x| > 0 {
      DotComm(x[1..], y[1..]);
    }
  }

  lemma {:induction false} Dot2Comm(a: Plane, b: Plane)
    requires SameShape(a, b)
    ensures Dot2(a, b) == Dot2(b, a)
  {
    if |a| > 0 {
      DotComm(a[0], b[0]);
      Dot2Comm(a[1..], b[1..]);
    }
  }

  lemma {:induction false} Dot3Comm(f: Field, g: Field)
    requires SameShape3(f, g)
    ensures Dot3(f, g) == Dot3(g, f)
  {
    if |f| > 0 {
      Dot2Comm(f[0], g[0]);
      Dot3Comm(f[1..], g[1..]);
    }
  }

  // Linearity in the first argument.

  lemma {:induction false} DotAdd(x: seq<real>, y: seq<real>, z: seq<real>)
    requires |x| == |y| == |z|
    ensures Dot(AddV(x, y), z) == Dot(x, z) + Dot(y, z)
  {
    if |x| > 0 {
      assert AddV(x, y)[1..] == AddV(x[1..], y[1..]);
      DotAdd(x[1..], y[1..], z[1..]);
    }
  }

  lemma {:induction false} DotSub(x: seq<real>, y: seq<real>, z: seq<real>)
    requires |x| == |y| == |z|
    ensures Dot(SubV(x, y), z) == Dot(x, z) - Dot(y, z)
  {
    if |x| > 0 {
      assert SubV(x, y)[1..] == SubV(x[1..], y[1..]);
      DotSub(x[1..], y[1..], z[1..]);
    }
  }

  lemma {:induction false} DotNeg(x: seq<real>, z: seq<real>)
    requires |x| == |z|
    ensures Dot(NegV(x), z) == -Dot(x, z)
  {
    if |x| > 0 {
      assert NegV(x)[1..] == NegV(x[1..]);
      DotNeg(x[1..], z[1..]);
    }
  }

  lemma {:induction false} DotScale(s: real, x: seq<real>, z: seq<real>)
    requires |x| == |z|
    ensures Dot(ScaleV(s, x), z) == s * Dot(x, z)
  {
    if |x| > 0 {
      assert forall k :: 0 <= k < |x| - 1 ==> ScaleV(s, x)[1..][k] == ScaleV(s, x[1..])[k];
      assert ScaleV(s, x)[1..] == ScaleV(s, x[1..]);
      DotScale(s, x[1..], z[1..]);
    }
  }

  lemma {:induction false} Dot2Add(a: Plane, b: Plane, c: Plane)
    requires SameShape(a, b) && SameShape(a, c)
    ensures Dot2(AddP(a, b), c) == Dot2(a, c) + Dot2(b, c)
  {
    if |a| > 0 {
      DotAdd(a[0], b[0], c[0]);
      assert AddP(a, b)[1..] == AddP(a[1..], b[1..]);
      Dot2Add(a[1..], b[1..], c[1..]);
    }
  }

  lemma {:induction false} Dot2Sub(a: Plane, b: Plane, c: Plane)
    requires SameShape(a, b) && SameShape(a, c)
    ensures Dot2(SubP(a, b), c) == Dot2(a, c) - Dot2(b, c)
  {
    if |a| > 0 {
      DotSub(a[0], b[0], c[0]);
      assert SubP(a, b)[1..] == SubP(a[1..], b[1..]);
      Dot2Sub(a[1..], b[1..], c[1..]);
    }
  }

  lemma {:induction false} Dot2Neg(a: Plane, c: Plane)
    requires SameShape(a, c)
    ensures Dot2(NegP(a), c) == -Dot2(a, c)
  {
    if |a| > 0 {
      DotNeg(a[0], c[0]);
      assert NegP(a)[1..] == NegP(a[1..]);
      Dot2Neg(a[1..], c[1..]);
    }
  }

  lemma {:induction false} Dot2Scale(s: real, a: Plane, c: Plane)
    requires SameShape(a, c)
    ensures Dot2(ScaleP(s, a), c) == s * Dot2(a, c)
  {
    if |a| > 0 {
      DotScale(s, a[0], c[0]);
      assert ScaleP(s, a)[1..] == ScaleP(s, a[1..]);
      Dot2Scale(s, a[1..], c[1..]);
    }
  }

  // The inner product of a stacked field is the sum of the inner products
  // of its channels.

  lemma DotPixel2(a: real, b: real, v: seq<real>)
    requires |v| == 2
    ensures Dot([a, b], v) == a * v[0] + b * v[1]
  {
    assert [a, b][1..] == [b] && [b][1..] == [];
    assert Dot([b], v[1..]) == b * v[1] + Dot([], v[2..]);
  }

  lemma DotPixel3(a: real, b: real, c: real, v: seq<real>)
    requires |v| == 3
    ensures Dot([a, b, c], v) == a * v[0] + b * v[1] + c * v[2]
  {
    assert [a, b, c][1..] == [b, c] && [b, c][1..] == [c] && [c][1..] == [];
    assert v[1..][1..] == v[2..] && v[2..][1..] == v[3..];
    assert Dot([c], v[2..]) == c * v[2] + Dot([], v[3..]);
    assert Dot([b, c], v[1..]) == b * v[1] + Dot([c], v[2..]);
  }

  lemma {:induction false} DotStackRow2(x: seq<real>, y: seq<real>, g: seq<seq<real>>)
    requires |x| == |y| && IsPlane(g, |x|, 2)
    ensures SameShape(StackRow2(x, y), g)
    ensures Dot2(StackRow2(x, y), g) == Dot(x, ChannelRow(g, 0)) + Dot(y, ChannelRow(g, 1))
  {
    if |x| > 0 {
      assert StackRow2(x, y)[1..] == StackRow2(x[1..], y[1..]);
      assert ChannelRow(g, 0)[1..] == ChannelRow(g[1..], 0);
      assert ChannelRow(g, 1)[1..] == ChannelRow(g[1..], 1);
      DotStackRow2(x[1..], y[1..], g[1..]);
      DotPixel2(x[0], y[0], g[0]);
    }
  }

  lemma {:induction false} DotStack2(x: Plane, y: Plane, g: Field)
    requires SameShape(x, y) && SameShape(x, g)
    requires forall i :: 0 <= i < |g| ==> IsPlane(g[i], |x[i]|, 2)
    ensures SameShape3(Stack2(x, y), g)
    ensures Dot3(Stack2(x, y), g) == Dot2(x, Channel(g, 0)) + Dot2(y, Channel(g, 1))
  {
    if |x| > 0 {
      DotStackRow2(x[0], y[0], g[0]);
      assert Stack2(x, y)[1..] == Stack2(x[1..], y[1..]);
      assert Channel(g, 0)[1..] == Channel(g[1..], 0);
      assert Channel(g, 1)[1..] == Channel(g[1..], 1);
      DotStack2(x[1..], y[1..], g[1..]);
    }
  }

  lemma {:induction false} DotStackRow3(x: seq<real>, y: seq<real>, z: seq<real>, g: seq<seq<real>>)
    requires |x| == |y| == |z| && IsPlane(g, |x|, 3)
    ensures SameShape(StackRow3(x, y, z), g)
    ensures Dot2(StackRow3(x, y, z), g)
         == Dot(x, ChannelRow(g, 0)) + Dot(y, ChannelRow(g, 1)) + Dot(z, ChannelRow(g, 2))
  {
    if |x| > 0 {
      assert StackRow3(x, y, z)[1..] == StackRow3(x[1..], y[1..], z[1..]);
      assert ChannelRow(g, 0)[1..] == ChannelRow(g[1..], 0);
      assert ChannelRow(g, 1)[1..] == ChannelRow(g[1..], 1);
      assert ChannelRow(g, 2)[1..] == ChannelRow(g[1..], 2);
      DotStackRow3(x[1..], y[1..], z[1..], g[1..]);
      DotPixel3(x[0], y[0], z[0], g[0]);
    }
  }

  lemma {:induction false} DotStack3(x: Plane, y: Plane, z: Plane, g: Field)
    requires SameShape(x, y) && SameShape(x, z) && SameShape(x, g)
    requires forall i :: 0 <= i < |g| ==> IsPlane(g[i], |x[i]|, 3)
    ensures SameShape3(Stack3(x, y, z), g)
    ensures Dot3(Stack3(x, y, z), g)
         == Dot2(x, Channel(g, 0)) + Dot2(y, Channel(g, 1)) + Dot2(z, Channel(g, 2))
  {
    if |x| > 0 {
      DotStackRow3(x[0], y[0], z[0], g[0]);
      assert Stack3(x, y, z)[1..] == Stack3(x[1..], y[1..], z[1..]);
      assert Channel(g, 0)[1..] == Channel(g[1..], 0);
      assert Channel(g, 1)[1..] == Channel(g[1..], 1);
      assert Channel(g, 2)[1..] == Channel(g[1..], 2);
      DotStack3(x[1..], y[1..], z[1..], g[1..]);
    }
  }
}
