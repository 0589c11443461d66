/** `tgv_denoise`: the primal-dual iteration for second-order total
    generalized variation denoising. The state holds the image u, the
    auxiliary vector field w, the dual fields p (two channels) and q (three
    channels) and the over-relaxed copies uBar and wBar. */
module Solver {
  import opened Grid
  import opened FiniteDifferences
  import opened Projection

  datatype Params = Params(lam: real, alpha0: real, alpha1: real, tau: real, sigma: real)

  /** The radius p is projected onto: alpha1·lam. */
  function RadiusP(prm: Params): real
  {
    prm.alpha1 * prm.lam
  }

  /** The radius q is projected onto: alpha0·lam. */
  function RadiusQ(prm: Params): real
  {
    prm.alpha0 * prm.lam
  }

  /** What the exact-arithmetic model needs of the parameters: nonzero
      projection radii and a nonzero denominator 1 + tau. */
  predicate ValidParams(prm: Params)
  {
    RadiusP(prm) != 0.0 && RadiusQ(prm) != 0.0 && 1.0 + prm.tau != 0.0
  }

  datatype State = State(u: Plane, w: Field, p: Field, q: Field, uBar: Plane, wBar: Field)

  /** Every array of the state has the image's H×W shape. */
  predicate Shaped(s: State, h: nat, w: nat)
  {
    IsPlane(s.u, h, w) && IsField(s.w, h, w, 2) && IsField(s.p, h, w, 2) &&
    IsField(s.q, h, w, 3) && IsPlane(s.uBar, h, w) && IsField(s.wBar, h, w, 2)
  }

  /** The state before the first iteration: u and uBar are the input,
      w, p, q and wBar are zero. */
  function Init(u0: Plane): (s: State)
    requires IsPlane(u0, |u0|, Width(u0))
    ensures Shaped(s, |u0|, Width(u0))
  {
    var h, w := |u0|, Width(u0);
    State(u0, ZeroField(h, w, 2), ZeroField(h, w, 2), ZeroField(h, w, 3), u0, ZeroField(h, w, 2))
  }

  lemma FieldShapes(f: Field, g: Field, h: nat, w: nat, c: nat)
    requires IsField(f, h, w, c) && IsField(g, h, w, c)
    ensures SameShape3(f, g)
  {
  }

  lemma KeepsFieldShape(f: Field, g: Field, h: nat, w: nat, c: nat)
    requires IsField(f, h, w, c) && SameShape3(g, f)
    ensures IsField(g, h, w, c)
  {
  }

  lemma KeepsPlaneShape(a: Plane, b: Plane, h: nat, w: nat)
    requires IsPlane(a, h, w) && SameShape(b, a)
    ensures IsPlane(b, h, w)
  {
  }

  /** A dual ascent step `x + sigma·g` on a field of c channels. */
  function Ascent(x: Field, g: Field, sigma: real, h: nat, w: nat, c: nat): (a: Field)
    requires h > 0 && w > 0 && IsField(x, h, w, c) && IsField(g, h, w, c)
    ensures IsField(a, h, w, c) && HasChannels(a, c)
  {
    var e := ScaleF(sigma, g);
    KeepsFieldShape(g, e, h, w, c);
    FieldShapes(x, e, h, w, c);
    var a := AddF(x, e);
    KeepsFieldShape(x, a, h, w, c);
    FieldHasChannels(a, h, w, c);
    a
  }

  /** The dual ascent on p (before the projection): a step of size sigma
      along the gradient of uBar minus wBar. */
  function AscentP(p: Field, uBar: Plane, wBar: Field, sigma: real): (a: Field)
    requires IsImage(uBar) && IsField(p, |uBar|, Width(uBar), 2)
    requires IsField(wBar, |uBar|, Width(uBar), 2)
    ensures IsField(a, |uBar|, Width(uBar), 2) && HasChannels(a, 2)
  {
    var h, w := |uBar|, Width(uBar);
    var g := Gradient(uBar);
    FieldShapes(g, wBar, h, w, 2);
    var d := SubF(g, wBar);
    KeepsFieldShape(g, d, h, w, 2);
    Ascent(p, d, sigma, h, w, 2)
  }

  /** The dual ascent on q (before the projection): a step of size sigma
      along the symmetrised gradient of wBar. */
  function AscentQ(q: Field, wBar: Field, sigma: real): (a: Field)
    requires IsVectorField(wBar, 2) && IsField(q, |wBar|, Width(wBar), 3)
    ensures IsField(a, |wBar|, Width(wBar), 3) && HasChannels(a, 3)
  {
    Ascent(q, SymGradient(wBar), sigma, |wBar|, Width(wBar), 3)
  }

  /** The new p: the ascent step projected onto the ball of radius alpha1·lam. */
  function DualP(s: State, prm: Params, sqrt: real -> real): (p: Field)
    requires ValidParams(prm) && |s.u| > 0 && Width(s.u) > 0 && Shaped(s, |s.u|, Width(s.u))
    ensures IsField(p, |s.u|, Width(s.u), 2)
  {
    ProjectField(AscentP(s.p, s.uBar, s.wBar, prm.sigma), 2, RadiusP(prm), sqrt)
  }

  /** The new q: the ascent step projected onto the ball of radius alpha0·lam. */
  function DualQ(s: State, prm: Params, sqrt: real -> real): (q: Field)
    requires ValidParams(prm) && |s.u| > 0 && Width(s.u) > 0 && Shaped(s, |s.u|, Width(s.u))
    ensures IsField(q, |s.u|, Width(s.u), 3)
  {
    assert Width(s.wBar) == Width(s.u);
    ProjectField(AscentQ(s.q, s.wBar, prm.sigma), 3, RadiusQ(prm), sqrt)
  }

  /** The primal descent on u given the divergence dv of p:
      `(u - tau·dv + tau·u0) / (1 + tau)`. */
  function DescentU(u: Plane, dv: Plane, u0: Plane, tau: real): (r: Plane)
    requires 1.0 + tau != 0.0 && IsImage(u0) && IsPlane(u, |u0|, Width(u0))
    requires IsPlane(dv, |u0|, Width(u0))
    ensures IsPlane(r, |u0|, Width(u0))
  {
    var h, w := |u0|, Width(u0);
    var d := ScaleP(tau, dv);
    KeepsPlaneShape(dv, d, h, w);
    var a := SubP(u, d);
    KeepsPlaneShape(u, a, h, w);
    var b := AddP(a, ScaleP(tau, u0));
    KeepsPlaneShape(a, b, h, w);
    var c := DivP(b, 1.0 + tau);
    KeepsPlaneShape(b, c, h, w);
    c
  }

  /** The primal descent on u: `(u - tau·div(p) + tau·u0) / (1 + tau)`. */
  function PrimalU(u: Plane, p: Field, u0: Plane, tau: real): (r: Plane)
    requires 1.0 + tau != 0.0 && IsImage(u0) && IsPlane(u, |u0|, Width(u0))
    requires IsField(p, |u0|, Width(u0), 2)
    ensures IsPlane(r, |u0|, Width(u0))
  {
    DescentU(u, Divergence(p), u0, tau)
  }

  /** The primal descent on w given the symmetrised divergence sd of q:
      `w - tau·(-p + sd)`. */
  function DescentW(w: Field, p: Field, sd: Field, tau: real): (r: Field)
    requires |w| > 0 && Width(w) > 0 && IsField(w, |w|, Width(w), 2)
    requires IsField(p, |w|, Width(w), 2) && IsField(sd, |w|, Width(w), 2)
    ensures IsField(r, |w|, Width(w), 2)
  {
    var h, wd := |w|, Width(w);
    var n := NegF(p);
    KeepsFieldShape(p, n, h, wd, 2);
    FieldShapes(n, sd, h, wd, 2);
    var a := AddF(n, sd);
    KeepsFieldShape(n, a, h, wd, 2);
    var b := ScaleF(tau, a);
    KeepsFieldShape(a, b, h, wd, 2);
    FieldShapes(w, b, h, wd, 2);
    var c := SubF(w, b);
    KeepsFieldShape(w, c, h, wd, 2);
    c
  }

  /** The primal descent on w: `w - tau·(-p + sym_div(q))`. */
  function PrimalW(w: Field, p: Field, q: Field, tau: real): (r: Field)
    requires |w| > 0 && Width(w) > 0 && IsField(w, |w|, Width(w), 2)
    requires IsField(p, |w|, Width(w), 2) && IsField(q, |w|, Width(w), 3)
    ensures IsField(r, |w|, Width(w), 2)
  {
    assert Width(q) == Width(w);
    DescentW(w, p, SymDivergence(q), tau)
  }

  /** Over-relaxation of a plane: `2·x - prev`. */
  function RelaxP(x: Plane, prev: Plane): (r: Plane)
    requires SameShape(x, prev)
    ensures SameShape(r, x)
  {
    SubP(ScaleP(2.0, x), prev)
  }

  /** Over-relaxation of a field: `2·x - prev`. */
  function RelaxF(x: Field, prev: Field): (r: Field)
    requires SameShape3(x, prev)
    ensures SameShape3(r, x)
  {
    SubF(ScaleF(2.0, x), prev)
  }

  /** One pass of the loop body. */
  function Step(s: State, u0: Plane, prm: Params, sqrt: real -> real): (r: State)
    requires ValidParams(prm) && IsImage(u0) && Shaped(s, |u0|, Width(u0))
    ensures Shaped(r, |u0|, Width(u0))
  {
    var h, w := |u0|, Width(u0);
    var p := DualP(s, prm, sqrt);
    var q := DualQ(s, prm, sqrt);
    var u := PrimalU(s.u, p, u0, prm.tau);
    var wNew := PrimalW(s.w, p, q, prm.tau);
    var uBar := RelaxP(u, s.u);
    var wBar := RelaxF(wNew, s.w);
    KeepsPlaneShape(u, uBar, h, w);
    KeepsFieldShape(wNew, wBar, h, w, 2);
    State(u, wNew, p, q, uBar, wBar)
  }

  /** What `tgv_denoise` demands: a rectangular image, and when the loop
      runs at all a non-empty one and valid parameters. */
  predicate Runnable(u0: Plane, prm: Params, nIter: int)
  {
    IsPlane(u0, |u0|, Width(u0)) && (nIter > 0 ==> IsImage(u0) && ValidParams(prm))
  }

  /** The state after k passes of the loop body. */
  function Iterate(u0: Plane, prm: Params, sqrt: real -> real, k: nat): (s: State)
    requires Runnable(u0, prm, k)
    ensures Shaped(s, |u0|, Width(u0))
  {
    if k == 0 then Init(u0) else Step(Iterate(u0, prm, sqrt, k - 1), u0, prm, sqrt)
  }

  /** The image `tgv_denoise` returns: the loop runs max(nIter, 0) times. */
  function Denoised(u0: Plane, prm: Params, sqrt: real -> real, nIter: int): (u: Plane)
    requires Runnable(u0, prm, nIter)
    ensures IsPlane(u, |u0|, Width(u0))
    ensures nIter <= 0 ==> u == u0
  {
    Iterate(u0, prm, sqrt, if nIter > 0 then nIter else 0).u
  }

  // Properties of the iteration.

  /** A zero field is the zero field of its shape. */
  lemma ZeroFieldUnique(f: Field, h: nat, w: nat, c: nat)
    requires IsField(f, h, w, c) && IsZeroField(f)
    ensures f == ZeroField(h, w, c)
  {
    var z := ZeroField(h, w, c);
    FieldExt(f, z);
  }

  lemma AscentAt(x: Field, g: Field, sigma: real, h: nat, w: nat, c: nat, i: nat, j: nat, k: nat)
    requires h > 0 && w > 0 && IsField(x, h, w, c) && IsField(g, h, w, c)
    requires i < h && j < w && k < c
    ensures Ascent(x, g, sigma, h, w, c)[i][j][k] == x[i][j][k] + sigma * g[i][j][k]
  {
  }

  lemma DescentUAt(u: Plane, dv: Plane, u0: Plane, tau: real, i: nat, j: nat)
    requires 1.0 + tau != 0.0 && IsImage(u0) && IsPlane(u, |u0|, Width(u0))
    requires IsPlane(dv, |u0|, Width(u0))
    requires i < |u0| && j < Width(u0)
    ensures DescentU(u, dv, u0, tau)[i][j] == ((u[i][j] - tau * dv[i][j]) + tau * u0[i][j]) / (1.0 + tau)
  {
    var h, w := |u0|, Width(u0);
    var d := ScaleP(tau, dv);
    KeepsPlaneShape(dv, d, h, w);
    var a := SubP(u, d);
    KeepsPlaneShape(u, a, h, w);
    var t := ScaleP(tau, u0);
    var b := AddP(a, t);
    KeepsPlaneShape(a, b, h, w);
    assert DescentU(u, dv, u0, tau) == DivP(b, 1.0 + tau);
    assert DivP(b, 1.0 + tau)[i][j] == b[i][j] / (1.0 + tau);
    assert b[i][j] == (u[i][j] - tau * dv[i][j]) + tau * u0[i][j];
  }

  lemma DescentWAt(w: Field, p: Field, sd: Field, tau: real, i: nat, j: nat, k: nat)
    requires |w| > 0 && Width(w) > 0 && IsField(w, |w|, Width(w), 2)
    requires IsField(p, |w|, Width(w), 2) && IsField(sd, |w|, Width(w), 2)
    requires i < |w| && j < Width(w) && k < 2
    ensures DescentW(w, p, sd, tau)[i][j][k] == w[i][j][k] - tau * (-p[i][j][k] + sd[i][j][k])
  {
  }

  /** An ascent from zero along a zero direction stays at zero. */
  lemma AscentAtRest(x: Field, g: Field, sigma: real, h: nat, w: nat, c: nat)
    requires h > 0 && w > 0 && IsField(x, h, w, c) && IsField(g, h, w, c)
    requires IsZeroField(x) && IsZeroField(g)
    ensures Ascent(x, g, sigma, h, w, c) == ZeroField(h, w, c)
  {
    var a := Ascent(x, g, sigma, h, w, c);
    assert IsZeroField(a) by {
      forall i, j, k | 0 <= i < |a| && 0 <= j < |a[i]| && 0 <= k < |a[i][j]|
        ensures a[i][j][k] == 0.0
      {
        AscentAt(x, g, sigma, h, w, c, i, j, k);
      }
    }
    ZeroFieldUnique(a, h, w, c);
  }

  /** On a constant image at rest the ascent on p is zero. */
  lemma AscentPAtRest(u0: Plane, v: real, sigma: real)
    requires IsImage(u0) && IsConstant(u0, v)
    ensures AscentP(ZeroField(|u0|, Width(u0), 2), u0, ZeroField(|u0|, Width(u0), 2), sigma)
            == ZeroField(|u0|, Width(u0), 2)
  {
    var h, w := |u0|, Width(u0);
    var z := ZeroField(h, w, 2);
    GradientOfConstant(u0, v);
    var d := SubF(z, z);
    KeepsFieldShape(z, d, h, w, 2);
    assert IsZeroField(d) by {
      forall i, j, k | 0 <= i < |d| && 0 <= j < |d[i]| && 0 <= k < |d[i][j]|
        ensures d[i][j][k] == 0.0
      {
        assert d[i][j][k] == z[i][j][k] - z[i][j][k];
      }
    }
    AscentAtRest(z, d, sigma, h, w, 2);
  }

  /** The ascent on q from zero fields is zero. */
  lemma AscentQAtRest(h: nat, w: nat, sigma: real)
    requires h > 0 && w > 0
    ensures AscentQ(ZeroField(h, w, 3), ZeroField(h, w, 2), sigma) == ZeroField(h, w, 3)
  {
    var z2, z3 := ZeroField(h, w, 2), ZeroField(h, w, 3);
    assert Width(z2) == w;
    SymGradientOfZero(z2);
    AscentAtRest(z3, SymGradient(z2), sigma, h, w, 3);
  }

  /** `(a + t·a) / (1 + t)` gives back `a`. */
  ghost predicate Restored(a: real, t: real)
    requires 1.0 + t != 0.0
  {
    (a + t * a) / (1.0 + t) == a
  }

  lemma DivOfProduct(a: real, c: real, b: real)
    requires b != 0.0 && c == a * b
    ensures c / b == a
  {
  }

  lemma AllRestored(t: real)
    requires 1.0 + t != 0.0
    ensures forall a :: Restored(a, t)
  {
    forall a ensures Restored(a, t) {
      DivOfProduct(a, a + t * a, 1.0 + t);
    }
  }

  /** With a zero divergence the primal step keeps u = u0: the data term
      is at its minimum. */
  lemma DescentUAtRest(u0: Plane, dv: Plane, tau: real)
    requires 1.0 + tau != 0.0 && IsImage(u0) && IsPlane(dv, |u0|, Width(u0)) && IsConstant(dv, 0.0)
    ensures DescentU(u0, dv, u0, tau) == u0
  {
    var r := DescentU(u0, dv, u0, tau);
    AllRestored(tau);
    forall i, j | 0 <= i < |r| && 0 <= j < |r[i]| ensures r[i][j] == u0[i][j] {
      DescentUAt(u0, dv, u0, tau, i, j);
      assert Restored(u0[i][j], tau);
    }
    PlaneExt(r, u0);
  }

  lemma PrimalUAtRest(u0: Plane, tau: real)
    requires 1.0 + tau != 0.0 && IsImage(u0)
    ensures PrimalU(u0, ZeroField(|u0|, Width(u0), 2), u0, tau) == u0
  {
    var z := ZeroField(|u0|, Width(u0), 2);
    assert Width(z) == Width(u0);
    DivergenceOfZero(z);
    DescentUAtRest(u0, Divergence(z), tau);
  }

  /** With p and the symmetrised divergence zero the primal step keeps w zero. */
  lemma DescentWAtRest(h: nat, w: nat, sd: Field, tau: real)
    requires h > 0 && w > 0 && IsField(sd, h, w, 2) && IsZeroField(sd)
    ensures DescentW(ZeroField(h, w, 2), ZeroField(h, w, 2), sd, tau) == ZeroField(h, w, 2)
  {
    var z2 := ZeroField(h, w, 2);
    assert Width(z2) == w;
    var r := DescentW(z2, z2, sd, tau);
    assert IsZeroField(r) by {
      forall i, j, k | 0 <= i < |r| && 0 <= j < |r[i]| && 0 <= k < |r[i][j]|
        ensures r[i][j][k] == 0.0
      {
        DescentWAt(z2, z2, sd, tau, i, j, k);
      }
    }
    ZeroFieldUnique(r, h, w, 2);
  }

  lemma PrimalWAtRest(h: nat, w: nat, tau: real)
    requires h > 0 && w > 0
    ensures PrimalW(ZeroField(h, w, 2), ZeroField(h, w, 2), ZeroField(h, w, 3), tau) == ZeroField(h, w, 2)
  {
    var z3 := ZeroField(h, w, 3);
    assert Width(z3) == w;
    SymDivergenceOfZero(z3);
    DescentWAtRest(h, w, SymDivergence(z3), tau);
  }

  /** Over-relaxation of a value against itself gives the value back. */
  lemma RelaxAtRest(u: Plane, f: Field)
    requires SameShape3(f, f)
    ensures RelaxP(u, u) == u && RelaxF(f, f) == f
  {
    var a := RelaxP(u, u);
    forall i, j | 0 <= i < |u| && 0 <= j < |u[i]| ensures a[i][j] == u[i][j] {
      assert a[i][j] == 2.0 * u[i][j] - u[i][j];
    }
    PlaneExt(a, u);
    var g := RelaxF(f, f);
    forall i, j, k | 0 <= i < |f| && 0 <= j < |f[i]| && 0 <= k < |f[i][j]|
      ensures g[i][j][k] == f[i][j][k]
    {
      assert g[i][j][k] == 2.0 * f[i][j][k] - f[i][j][k];
    }
    FieldExt(g, f);
  }

  /** A constant image with the initial state is a fixed point of the loop body. */
  lemma StepAtRest(u0: Plane, v: real, prm: Params, sqrt: real -> real)
    requires IsImage(u0) && IsConstant(u0, v) && ValidParams(prm)
    ensures Step(Init(u0), u0, prm, sqrt) == Init(u0)
  {
    var h, w := |u0|, Width(u0);
    var s := Init(u0);
    var z2, z3 := ZeroField(h, w, 2), ZeroField(h, w, 3);
    AscentPAtRest(u0, v, prm.sigma);
    FieldHasChannels(z2, h, w, 2);
    ProjectFieldZero(z2, 2, RadiusP(prm), sqrt);
    assert DualP(s, prm, sqrt) == z2;
    assert Width(z2) == w;
    AscentQAtRest(h, w, prm.sigma);
    FieldHasChannels(z3, h, w, 3);
    ProjectFieldZero(z3, 3, RadiusQ(prm), sqrt);
    assert DualQ(s, prm, sqrt) == z3;
    PrimalUAtRest(u0, prm.tau);
    PrimalWAtRest(h, w, prm.tau);
    RelaxAtRest(u0, z2);
  }

  lemma IterateOnceMore(u0: Plane, v: real, prm: Params, sqrt: real -> real, j: nat)
    requires IsImage(u0) && IsConstant(u0, v) && ValidParams(prm)
    requires Iterate(u0, prm, sqrt, j) == Init(u0)
    ensures Iterate(u0, prm, sqrt, j + 1) == Init(u0)
  {
    StepAtRest(u0, v, prm, sqrt);
  }

  /** A constant image stays put for any number of iterations. */
  lemma {:induction false} IterateAtRest(u0: Plane, v: real, prm: Params, sqrt: real -> real, k: nat)
    requires IsImage(u0) && IsConstant(u0, v) && ValidParams(prm)
    ensures Iterate(u0, prm, sqrt, k) == Init(u0)
  {
    if k > 0 {
      var j: nat := k - 1;
      IterateAtRest(u0, v, prm, sqrt, j);
      IterateOnceMore(u0, v, prm, sqrt, j);
    }
  }

  /** `tgv_denoise` returns a constant image unchanged. */
  lemma DenoisedConstant(u0: Plane, v: real, prm: Params, sqrt: real -> real, nIter: int)
    requires IsImage(u0) && IsConstant(u0, v) && ValidParams(prm)
    ensures Denoised(u0, prm, sqrt, nIter) == u0
  {
    IterateAtRest(u0, v, prm, sqrt, if nIter > 0 then nIter else 0);
  }

  /** After every pass the dual variables are feasible: each pixel of p lies
      in the ball of radius alpha1·lam and each pixel of q in the ball of
      radius alpha0·lam. */
  lemma StepWithinBall(s: State, u0: Plane, prm: Params, sqrt: real -> real)
    requires ValidParams(prm) && IsImage(u0) && Shaped(s, |u0|, Width(u0))
    requires RadiusP(prm) > 0.0 && RadiusQ(prm) > 0.0 && IsSqrt(sqrt)
    ensures HasChannels(Step(s, u0, prm, sqrt).p, 2) && HasChannels(Step(s, u0, prm, sqrt).q, 3)
    ensures WithinBall(Step(s, u0, prm, sqrt).p, 2, RadiusP(prm), sqrt)
    ensures WithinBall(Step(s, u0, prm, sqrt).q, 3, RadiusQ(prm), sqrt)
  {
    assert Width(s.wBar) == Width(u0);
    ProjectFieldWithinBall(AscentP(s.p, s.uBar, s.wBar, prm.sigma), 2, RadiusP(prm), sqrt);
    ProjectFieldWithinBall(AscentQ(s.q, s.wBar, prm.sigma), 3, RadiusQ(prm), sqrt);
  }

  /** The dual variables stay feasible from the start onwards. */
  lemma IterateWithinBall(u0: Plane, prm: Params, sqrt: real -> real, k: nat)
    requires IsImage(u0) && ValidParams(prm)
    requires RadiusP(prm) > 0.0 && RadiusQ(prm) > 0.0 && IsSqrt(sqrt)
    ensures HasChannels(Iterate(u0, prm, sqrt, k).p, 2) && HasChannels(Iterate(u0, prm, sqrt, k).q, 3)
    ensures WithinBall(Iterate(u0, prm, sqrt, k).p, 2, RadiusP(prm), sqrt)
    ensures WithinBall(Iterate(u0, prm, sqrt, k).q, 3, RadiusQ(prm), sqrt)
  {
    var h, w := |u0|, Width(u0);
    if k == 0 {
      var z2, z3 := ZeroField(h, w, 2), ZeroField(h, w, 3);
      FieldHasChannels(z2, h, w, 2);
      FieldHasChannels(z3, h, w, 3);
      ZeroFieldWithinBall(z2, 2, RadiusP(prm), sqrt);
      ZeroFieldWithinBall(z3, 3, RadiusQ(prm), sqrt);
    } else {
      StepWithinBall(Iterate(u0, prm, sqrt, k - 1), u0, prm, sqrt);
    }
  }

  /** One pass of the loop body of `tgv_denoise` over the mutable state:
      the two dual steps (with the in-place projections), the two primal
      steps and the over-relaxation. */
  method Pass(u0: Plane, prm: Params, sqrt: real -> real,
              u: Plane, w: Field, p: Field, q: Field, uBar: Plane, wBar: Field)
    returns (u': Plane, w': Field, p': Field, q': Field, uBar': Plane, wBar': Field)
    requires ValidParams(prm) && IsImage(u0) && Shaped(State(u, w, p, q, uBar, wBar), |u0|, Width(u0))
    ensures State(u', w', p', q', uBar', wBar') == Step(State(u, w, p, q, uBar, wBar), u0, prm, sqrt)
  {
    ghost var s := State(u, w, p, q, uBar, wBar);
    assert Width(wBar) == Width(u0);
    p' := ProjP(AscentP(p, uBar, wBar, prm.sigma), RadiusP(prm), sqrt);
    q' := ProjQ(AscentQ(q, wBar, prm.sigma), RadiusQ(prm), sqrt);
    assert p' == DualP(s, prm, sqrt) && q' == DualQ(s, prm, sqrt);
    u' := PrimalU(u, p', u0, prm.tau);
    w' := PrimalW(w, p', q', prm.tau);
    uBar' := RelaxP(u', u);
    wBar' := RelaxF(w', w);
  }

  /** `tgv_denoise`: the loop over mutable state, proved to compute `Denoised`. */
  method TgvDenoise(u0: Plane, lam: real, alpha0: real, alpha1: real, tau: real, sigma: real,
                    nIter: int, sqrt: real -> real) returns (u: Plane)
    requires Runnable(u0, Params(lam, alpha0, alpha1, tau, sigma), nIter)
    ensures u == Denoised(u0, Params(lam, alpha0, alpha1, tau, sigma), sqrt, nIter)
  {
    var prm := Params(lam, alpha0, alpha1, tau, sigma);
    var h, wd := |u0|, Width(u0);
    u := u0;
    var w := ZeroField(h, wd, 2);
    var p := ZeroField(h, wd, 2);
    var q := ZeroField(h, wd, 3);
    var uBar := u;
    var wBar := w;
    var i := 0;
    while i < nIter
      invariant 0 <= i <= if nIter > 0 then nIter else 0
      invariant Runnable(u0, prm, i)
      invariant State(u, w, p, q, uBar, wBar) == Iterate(u0, prm, sqrt, i)
    {
      u, w, p, q, uBar, wBar := Pass(u0, prm, sqrt, u, w, p, q, uBar, wBar);
      i := i + 1;
    }
    assert i == if nIter > 0 then nIter else 0;
    assert Denoised(u0, prm, sqrt, nIter) == Iterate(u0, prm, sqrt, i).u;
  }
}
