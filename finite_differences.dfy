/** The periodic finite-difference operators of the TGV scheme, each built
    from `Roll2d` exactly as the denoiser writes it: the forward-difference
    gradient and symmetrised gradient, and the divergences paired with them.
    With this sign convention `Divergence` is the plain transpose of
    `Gradient` (no minus sign) and `SymDivergence` the plain transpose of
    `SymGradient` over all three tensor channels. */
module FiniteDifferences {
  import opened Grid
  import opened Roll

  /** `roll2d(y, axis, -1) - y`: the periodic forward difference along an axis
      (axis 1 runs along a row, axis 0 down a column). */
  function ForwardDifference(y: Plane, axis: nat): (d: Plane)
    requires IsImage(y) && axis <= 1
    ensures IsPlane(d, |y|, Width(y))
  {
    SubP(Roll2d(y, axis, -1), y)
  }

  /** `y - roll2d(y, axis, 1)`: the periodic backward difference along an axis. */
  function BackwardDifference(y: Plane, axis: nat): (d: Plane)
    requires IsImage(y) && axis <= 1
    ensures IsPlane(d, |y|, Width(y))
  {
    SubP(y, Roll2d(y, axis, 1))
  }

  lemma ForwardDifferenceAt(y: Plane, i: nat, j: nat)
    requires IsImage(y) && i < |y| && j < Width(y)
    ensures ForwardDifference(y, 1)[i][j] == y[i][(j + 1) % Width(y)] - y[i][j]
    ensures ForwardDifference(y, 0)[i][j] == y[(i + 1) % |y|][j] - y[i][j]
  {
    var rx, ry := Roll2d(y, 1, -1), Roll2d(y, 0, -1);
    Roll2dAt(y, 1, -1);
    Roll2dAt(y, 0, -1);
    assert rx[i][j] == y[i][(j - -1) % Width(y)];
    assert ry[i][j] == y[(i - -1) % |y|][j];
  }

  lemma BackwardDifferenceAt(y: Plane, i: nat, j: nat)
    requires IsImage(y) && i < |y| && j < Width(y)
    ensures BackwardDifference(y, 1)[i][j] == y[i][j] - y[i][(j - 1) % Width(y)]
    ensures BackwardDifference(y, 0)[i][j] == y[i][j] - y[(i - 1) % |y|][j]
  {
    var rx, ry := Roll2d(y, 1, 1), Roll2d(y, 0, 1);
    Roll2dAt(y, 1, 1);
    Roll2dAt(y, 0, 1);
    assert rx[i][j] == y[i][(j - 1) % Width(y)];
    assert ry[i][j] == y[(i - 1) % |y|][j];
  }

  /** `gradient`: channel 0 is the forward difference along a row (axis 1),
      channel 1 the forward difference down a column (axis 0). */
  function Gradient(u: Plane): (g: Field)
    requires IsImage(u)
    ensures IsField(g, |u|, Width(u), 2)
  {
    var gradX := ForwardDifference(u, 1);
    var gradY := ForwardDifference(u, 0);
    Stack2(gradX, gradY)
  }

  /** `divergence`: backward differences of the two channels, summed and negated. */
  function Divergence(p: Field): (d: Plane)
    requires IsVectorField(p, 2)
    ensures IsPlane(d, |p|, Width(p))
  {
    ChannelIsImage(p, 2, 0);
    ChannelIsImage(p, 2, 1);
    var firstTerm := BackwardDifference(Channel(p, 0), 1);
    var secondTerm := BackwardDifference(Channel(p, 1), 0);
    NegP(AddP(firstTerm, secondTerm))
  }

  /** `sym_gradient`: the two diagonal entries and the averaged off-diagonal
      entry of the symmetrised Jacobian of a two-channel field. */
  function SymGradient(w: Field): (s: Field)
    requires IsVectorField(w, 2)
    ensures IsField(s, |w|, Width(w), 3)
  {
    ChannelIsImage(w, 2, 0);
    ChannelIsImage(w, 2, 1);
    var w0, w1 := Channel(w, 0), Channel(w, 1);
    var firstDiagonal := ForwardDifference(w0, 1);
    var secondDiagonal := ForwardDifference(w1, 0);
    var tmp1 := ForwardDifference(w0, 0);
    var tmp2 := ForwardDifference(w1, 1);
    var offDiagonals := ScaleP(0.5, AddP(tmp1, tmp2));
    Stack3(firstDiagonal, secondDiagonal, offDiagonals)
  }

  /** The first component of `sym_divergence`: minus the backward difference
      of channel 0 along a row, minus half that of channel 2 down a column. */
  function SymDivergenceFirst(q: Field): (d: Plane)
    requires IsVectorField(q, 3)
    ensures IsPlane(d, |q|, Width(q))
  {
    ChannelIsImage(q, 3, 0);
    ChannelIsImage(q, 3, 2);
    var firstTerm := NegP(BackwardDifference(Channel(q, 0), 1));
    var secondTerm := ScaleP(-0.5, BackwardDifference(Channel(q, 2), 0));
    AddP(firstTerm, secondTerm)
  }

  /** The second component of `sym_divergence`: minus the backward difference
      of channel 1 down a column, minus half that of channel 2 along a row. */
  function SymDivergenceSecond(q: Field): (d: Plane)
    requires IsVectorField(q, 3)
    ensures IsPlane(d, |q|, Width(q))
  {
    ChannelIsImage(q, 3, 1);
    ChannelIsImage(q, 3, 2);
    var firstTerm := NegP(BackwardDifference(Channel(q, 1), 0));
    var secondTerm := ScaleP(-0.5, BackwardDifference(Channel(q, 2), 1));
    AddP(firstTerm, secondTerm)
  }

  /** `sym_divergence`: a two-channel field from a three-channel tensor. */
  function SymDivergence(q: Field): (d: Field)
    requires IsVectorField(q, 3)
    ensures IsField(d, |q|, Width(q), 2)
  {
    Stack2(SymDivergenceFirst(q), SymDivergenceSecond(q))
  }

  // Pointwise formulas.

  lemma GradientAt(u: Plane, i: nat, j: nat)
    requires IsImage(u) && i < |u| && j < Width(u)
    ensures Gradient(u)[i][j][0] == u[i][(j + 1) % Width(u)] - u[i][j]
    ensures Gradient(u)[i][j][1] == u[(i + 1) % |u|][j] - u[i][j]
  {
    ForwardDifferenceAt(u, i, j);
  }

  lemma DivergenceAt(p: Field, i: nat, j: nat)
    requires IsVectorField(p, 2) && i < |p| && j < Width(p)
    ensures Divergence(p)[i][j]
      == (p[i][(j - 1) % Width(p)][0] - p[i][j][0]) + (p[(i - 1) % |p|][j][1] - p[i][j][1])
  {
    ChannelIsImage(p, 2, 0);
    ChannelIsImage(p, 2, 1);
    var p0, p1 := Channel(p, 0), Channel(p, 1);
    BackwardDifferenceAt(p0, i, j);
    BackwardDifferenceAt(p1, i, j);
    assert Divergence(p)[i][j] == -(BackwardDifference(p0, 1)[i][j] + BackwardDifference(p1, 0)[i][j]);
  }

  lemma SymGradientAt(w: Field, i: nat, j: nat)
    requires IsVectorField(w, 2) && i < |w| && j < Width(w)
    ensures SymGradient(w)[i][j][0] == w[i][(j + 1) % Width(w)][0] - w[i][j][0]
    ensures SymGradient(w)[i][j][1] == w[(i + 1) % |w|][j][1] - w[i][j][1]
    ensures SymGradient(w)[i][j][2]
      == 0.5 * ((w[(i + 1) % |w|][j][0] - w[i][j][0]) + (w[i][(j + 1) % Width(w)][1] - w[i][j][1]))
  {
    ChannelIsImage(w, 2, 0);
    ChannelIsImage(w, 2, 1);
    ForwardDifferenceAt(Channel(w, 0), i, j);
    ForwardDifferenceAt(Channel(w, 1), i, j);
  }

  lemma SymDivergenceAt(q: Field, i: nat, j: nat)
    requires IsVectorField(q, 3) && i < |q| && j < Width(q)
    ensures SymDivergence(q)[i][j][0]
      == -(q[i][j][0] - q[i][(j - 1) % Width(q)][0]) - 0.5 * (q[i][j][2] - q[(i - 1) % |q|][j][2])
    ensures SymDivergence(q)[i][j][1]
      == -(q[i][j][1] - q[(i - 1) % |q|][j][1]) - 0.5 * (q[i][j][2] - q[i][(j - 1) % Width(q)][2])
  {
    ChannelIsImage(q, 3, 0);
    ChannelIsImage(q, 3, 1);
    ChannelIsImage(q, 3, 2);
    BackwardDifferenceAt(Channel(q, 0), i, j);
    BackwardDifferenceAt(Channel(q, 1), i, j);
    BackwardDifferenceAt(Channel(q, 2), i, j);
  }

  // Adjointness.

  /** A forward difference moved across the inner product becomes minus the
      backward difference along the same axis. */
  lemma ForwardDifferenceAdjoint(v: Plane, y: Plane, axis: nat)
    requires IsImage(v) && IsPlane(y, |v|, Width(v)) && axis <= 1
    ensures IsImage(y) && Width(y) == Width(v)
    ensures Dot2(ForwardDifference(v, axis), y) == -Dot2(BackwardDifference(y, axis), v)
  {
    var rv, ry := Roll2d(v, axis, -1), Roll2d(y, axis, 1);
    Dot2Sub(rv, v, y);
    RollAdjoint(v, y, axis, -1);
    Dot2Sub(y, ry, v);
    Dot2Comm(v, y);
    Dot2Comm(v, ry);
  }

  /** `divergence` is the transpose of `gradient`:
      sum of gradient(a)·b over pixels and channels equals sum of a·divergence(b). */
  lemma GradientAdjoint(a: Plane, b: Field)
    requires IsImage(a) && IsField(b, |a|, Width(a), 2)
    ensures IsVectorField(b, 2)
    ensures Dot3(Gradient(a), b) == Dot2(a, Divergence(b))
  {
    assert Width(b) == Width(a);
    ChannelIsImage(b, 2, 0);
    ChannelIsImage(b, 2, 1);
    var b0, b1 := Channel(b, 0), Channel(b, 1);
    var t0, t1 := BackwardDifference(b0, 1), BackwardDifference(b1, 0);
    DotStack2(ForwardDifference(a, 1), ForwardDifference(a, 0), b);
    ForwardDifferenceAdjoint(a, b0, 1);
    ForwardDifferenceAdjoint(a, b1, 0);
    Dot2Comm(a, Divergence(b));
    Dot2Neg(AddP(t0, t1), a);
    Dot2Add(t0, t1, a);
  }

  /** The pairing of `sym_gradient(w)` with q, as inner products of the
      channels of w with backward differences of the channels of q. */
  lemma SymGradientPairing(w: Field, q: Field)
    requires IsVectorField(w, 2) && IsField(q, |w|, Width(w), 3)
    ensures Width(q) == Width(w) && IsVectorField(q, 3)
    ensures
      var w0, w1 := Channel(w, 0), Channel(w, 1);
      var q0, q1, q2 := Channel(q, 0), Channel(q, 1), Channel(q, 2);
      Dot3(SymGradient(w), q)
        == -Dot2(BackwardDifference(q0, 1), w0) - Dot2(BackwardDifference(q1, 0), w1)
           + 0.5 * (-Dot2(BackwardDifference(q2, 0), w0) - Dot2(BackwardDifference(q2, 1), w1))
  {
    assert Width(q) == Width(w);
    ChannelIsImage(w, 2, 0);
    ChannelIsImage(w, 2, 1);
    ChannelIsImage(q, 3, 0);
    ChannelIsImage(q, 3, 1);
    ChannelIsImage(q, 3, 2);
    var w0, w1 := Channel(w, 0), Channel(w, 1);
    var q0, q1, q2 := Channel(q, 0), Channel(q, 1), Channel(q, 2);
    var tmp1, tmp2 := ForwardDifference(w0, 0), ForwardDifference(w1, 1);
    DotStack3(ForwardDifference(w0, 1), ForwardDifference(w1, 0), ScaleP(0.5, AddP(tmp1, tmp2)), q);
    ForwardDifferenceAdjoint(w0, q0, 1);
    ForwardDifferenceAdjoint(w1, q1, 0);
    Dot2Scale(0.5, AddP(tmp1, tmp2), q2);
    Dot2Add(tmp1, tmp2, q2);
    ForwardDifferenceAdjoint(w0, q2, 0);
    ForwardDifferenceAdjoint(w1, q2, 1);
  }

  lemma HalfWeightedPairing(u: Plane, v: Plane, y: Plane)
    requires SameShape(u, v) && SameShape(u, y)
    ensures Dot2(AddP(NegP(u), ScaleP(-0.5, v)), y) == -Dot2(u, y) - 0.5 * Dot2(v, y)
  {
    Dot2Add(NegP(u), ScaleP(-0.5, v), y);
    Dot2Neg(u, y);
    Dot2Scale(-0.5, v, y);
  }

  lemma SymDivergenceFirstPairing(q: Field, y: Plane)
    requires IsVectorField(q, 3) && IsPlane(y, |q|, Width(q))
    ensures IsImage(Channel(q, 0)) && IsImage(Channel(q, 2))
    ensures Dot2(SymDivergenceFirst(q), y)
      == -Dot2(BackwardDifference(Channel(q, 0), 1), y)
         - 0.5 * Dot2(BackwardDifference(Channel(q, 2), 0), y)
  {
    ChannelIsImage(q, 3, 0);
    ChannelIsImage(q, 3, 2);
    HalfWeightedPairing(BackwardDifference(Channel(q, 0), 1), BackwardDifference(Channel(q, 2), 0), y);
  }

  lemma SymDivergenceSecondPairing(q: Field, y: Plane)
    requires IsVectorField(q, 3) && IsPlane(y, |q|, Width(q))
    ensures IsImage(Channel(q, 1)) && IsImage(Channel(q, 2))
    ensures Dot2(SymDivergenceSecond(q), y)
      == -Dot2(BackwardDifference(Channel(q, 1), 0), y)
         - 0.5 * Dot2(BackwardDifference(Channel(q, 2), 1), y)
  {
    ChannelIsImage(q, 3, 1);
    ChannelIsImage(q, 3, 2);
    HalfWeightedPairing(BackwardDifference(Channel(q, 1), 0), BackwardDifference(Channel(q, 2), 1), y);
  }

  lemma PairWithStack2(w: Field, x: Plane, y: Plane)
    requires IsVectorField(w, 2) && IsPlane(x, |w|, Width(w)) && IsPlane(y, |w|, Width(w))
    ensures SameShape3(w, Stack2(x, y))
    ensures Dot3(w, Stack2(x, y)) == Dot2(x, Channel(w, 0)) + Dot2(y, Channel(w, 1))
  {
    DotStack2(x, y, w);
    Dot3Comm(w, Stack2(x, y));
  }

  /** The pairing of w with `sym_divergence(q)`, in the same terms. */
  lemma SymDivergencePairing(w: Field, q: Field)
    requires IsVectorField(w, 2) && IsField(q, |w|, Width(w), 3)
    ensures Width(q) == Width(w) && IsVectorField(q, 3)
    ensures
      var w0, w1 := Channel(w, 0), Channel(w, 1);
      var q0, q1, q2 := Channel(q, 0), Channel(q, 1), Channel(q, 2);
      Dot3(w, SymDivergence(q))
        == -Dot2(BackwardDifference(q0, 1), w0) - Dot2(BackwardDifference(q1, 0), w1)
           + 0.5 * (-Dot2(BackwardDifference(q2, 0), w0) - Dot2(BackwardDifference(q2, 1), w1))
  {
    assert Width(q) == Width(w);
    ChannelIsImage(w, 2, 0);
    ChannelIsImage(w, 2, 1);
    PairWithStack2(w, SymDivergenceFirst(q), SymDivergenceSecond(q));
    SymDivergenceFirstPairing(q, Channel(w, 0));
    SymDivergenceSecondPairing(q, Channel(w, 1));
  }

  /** `sym_divergence` is the transpose of `sym_gradient` under the plain
      inner product over the three tensor channels. */
  lemma SymGradientAdjoint(w: Field, q: Field)
    requires IsVectorField(w, 2) && IsField(q, |w|, Width(w), 3)
    ensures Width(q) == Width(w) && IsVectorField(q, 3)
    ensures Dot3(SymGradient(w), q) == Dot3(w, SymDivergence(q))
  {
    SymGradientPairing(w, q);
    SymDivergencePairing(w, q);
  }

  // Constant inputs.

  /** The gradient of a constant image vanishes everywhere. */
  lemma GradientOfConstant(u: Plane, v: real)
    requires IsImage(u) && IsConstant(u, v)
    ensures Gradient(u) == ZeroField(|u|, Width(u), 2)
  {
    var g, z := Gradient(u), ZeroField(|u|, Width(u), 2);
    forall i, j, k | 0 <= i < |g| && 0 <= j < |g[i]| && 0 <= k < |g[i][j]|
      ensures g[i][j][k] == z[i][j][k]
    {
      GradientAt(u, i, j);
      assert k == 0 || k == 1;
      assert u[i][(j + 1) % Width(u)] == v && u[(i + 1) % |u|][j] == v;
    }
    FieldExt(g, z);
  }

  lemma DivergenceOfZero(p: Field)
    requires IsVectorField(p, 2) && IsZeroField(p)
    ensures IsConstant(Divergence(p), 0.0)
  {
    var d := Divergence(p);
    forall i, j | 0 <= i < |d| && 0 <= j < |d[i]| ensures d[i][j] == 0.0 {
      DivergenceAt(p, i, j);
    }
  }

  lemma SymGradientOfZero(w: Field)
    requires IsVectorField(w, 2) && IsZeroField(w)
    ensures IsZeroField(SymGradient(w))
  {
    var s := SymGradient(w);
    forall i, j, k | 0 <= i < |s| && 0 <= j < |s[i]| && 0 <= k < |s[i][j]|
      ensures s[i][j][k] == 0.0
    {
      SymGradientAt(w, i, j);
      assert k == 0 || k == 1 || k == 2;
    }
  }

  lemma SymDivergenceOfZero(q: Field)
    requires IsVectorField(q, 3) && IsZeroField(q)
    ensures IsZeroField(SymDivergence(q))
  {
    var d := SymDivergence(q);
    forall i, j, k | 0 <= i < |d| && 0 <= j < |d[i]| && 0 <= k < |d[i][j]|
      ensures d[i][j][k] == 0.0
    {
      SymDivergenceAt(q, i, j);
      assert k == 0 || k == 1;
    }
  }
}
