/** The dual projections `proj_p` and `proj_q`: for a positive radius,
    every pixel whose leading channels (two for p, three for q) have
    Euclidean norm above the radius is divided by norm/radius, and every
    other pixel is left as it is. A negative radius leaves every pixel as it
    is, since norm/radius never exceeds one.

    The square root is a parameter; the properties that need it to be the
    real square root say so with `IsSqrt`. */
module Projection {
  import opened Grid

  /** `sqrt` is the nonnegative square root on the nonnegative reals. */
  ghost predicate IsSqrt(sqrt: real -> real)
  {
    forall x :: x >= 0.0 ==> sqrt(x) >= 0.0 && Square(sqrt(x)) == x
  }

  /** `x.powi(2)`. */
  function Square(a: real): (s: real)
    ensures s >= 0.0
  {
    a * a
  }

  /** Sum of the squares of a vector's entries (`x.powi(2)` summed). */
  function SumSq(x: seq<real>): (s: real)
    ensures s >= 0.0
  {
    if |x| == 0 then 0.0 else Square(x[0]) + SumSq(x[1..])
  }

  /** The Euclidean norm of the first m channels of a pixel. */
  function PixelNorm(v: seq<real>, m: nat, sqrt: real -> real): (n: real)
    requires m <= |v|
    ensures IsSqrt(sqrt) ==> n >= 0.0 && Square(n) == SumSq(v[..m])
  {
    sqrt(SumSq(v[..m]))
  }

  /** The per-pixel divisor: n/r when that exceeds one, one otherwise. */
  function Factor(n: real, r: real): (f: real)
    requires r != 0.0
    ensures f >= 1.0
    ensures r > 0.0 ==> (f > 1.0 <==> n > r)
    ensures r < 0.0 && n >= 0.0 ==> f == 1.0
  {
    if n / r > 1.0 then n / r else 1.0
  }

  /** One pixel after the projection onto the ball of radius r over its
      first m channels; the remaining channels are not touched. */
  function Project(v: seq<real>, m: nat, r: real, sqrt: real -> real): (pv: seq<real>)
    requires m <= |v| && r != 0.0
    ensures |pv| == |v|
    ensures forall k :: m <= k < |v| ==> pv[k] == v[k]
  {
    var f := Factor(PixelNorm(v, m, sqrt), r);
    seq(|v|, k requires 0 <= k < |v| => if k < m then v[k] / f else v[k])
  }

  /** A field whose every pixel has at least m channels. */
  predicate HasChannels(f: Field, m: nat)
  {
    IsField(f, |f|, Width(f), Depth(f)) && (|f| > 0 && Width(f) > 0 ==> m <= Depth(f))
  }

  lemma FieldHasChannels(f: Field, h: nat, w: nat, c: nat)
    requires IsField(f, h, w, c) && h > 0 && w > 0
    ensures Width(f) == w && Depth(f) == c && HasChannels(f, c)
  {
  }

  /** The projection applied to every pixel of a field. */
  function ProjectField(f: Field, m: nat, r: real, sqrt: real -> real): (g: Field)
    requires HasChannels(f, m) && r != 0.0
    ensures IsField(g, |f|, Width(f), Depth(f))
  {
    seq(|f|, i requires 0 <= i < |f| =>
      seq(|f[i]|, j requires 0 <= j < |f[i]| => Project(f[i][j], m, r, sqrt)))
  }

  /** Every pixel of f lies in the closed ball of radius r over its first m channels. */
  predicate WithinBall(f: Field, m: nat, r: real, sqrt: real -> real)
    requires HasChannels(f, m)
  {
    forall i, j :: 0 <= i < |f| && 0 <= j < |f[i]| ==> PixelNorm(f[i][j], m, sqrt) <= r
  }

  // Facts about the square root and the sum of squares.

  lemma MulPos(a: real, b: real)
    requires a > 0.0 && b > 0.0
    ensures a * b > 0.0
  {
  }

  /** Two nonnegative reals with the same square are equal. */
  lemma SquareInjective(s: real, r: real)
    requires s >= 0.0 && r >= 0.0 && Square(s) == Square(r)
    ensures s == r
  {
    assert s * s == r * r;
    if s > r {
      assert (s - r) * (s + r) == s * s - r * r;
      MulPos(s - r, s + r);
    } else if s < r {
      assert (r - s) * (r + s) == r * r - s * s;
      MulPos(r - s, r + s);
    }
  }

  /** The square root of r², for r nonnegative, is r. */
  lemma SqrtOfSquare(sqrt: real -> real, r: real)
    requires IsSqrt(sqrt) && r >= 0.0
    ensures sqrt(Square(r)) == r
  {
    SquareInjective(sqrt(Square(r)), r);
  }

  lemma SquareOfQuotient(x: real, d: real)
    requires d != 0.0
    ensures Square(x / d) == (Square(x) / d) / d
  {
    assert (x * x) / d == x * (x / d);
    assert (x * (x / d)) / d == (x / d) * (x / d);
  }

  lemma DivDivAdd(a: real, b: real, d: real)
    requires d != 0.0
    ensures ((a + b) / d) / d == (a / d) / d + (b / d) / d
  {
    assert (a + b) / d == a / d + b / d;
  }

  /** Dividing every entry by d divides the sum of squares by d². */
  lemma {:induction false} SumSqDiv(x: seq<real>, d: real)
    requires d != 0.0
    ensures SumSq(DivV(x, d)) == (SumSq(x) / d) / d
  {
    if |x| > 0 {
      var y := DivV(x, d);
      assert y[1..] == DivV(x[1..], d);
      assert y[0] == x[0] / d;
      SquareOfQuotient(x[0], d);
      SumSqDiv(x[1..], d);
      DivDivAdd(Square(x[0]), SumSq(x[1..]), d);
    }
  }

  /** With f = n/r and s = n², s/f² is r². */
  lemma RescaledSquare(s: real, n: real, r: real, f: real)
    requires r > 0.0 && n > r && f == n / r && Square(n) == s
    ensures (s / f) / f == Square(r)
  {
  }

  // Pixel-level properties.

  /** A pixel inside the ball (norm at most r) is left unchanged. */
  lemma ProjectInsideBall(v: seq<real>, m: nat, r: real, sqrt: real -> real)
    requires m <= |v| && r > 0.0 && PixelNorm(v, m, sqrt) <= r
    ensures Project(v, m, r, sqrt) == v
  {
    var pv := Project(v, m, r, sqrt);
    forall k | 0 <= k < |v| ensures pv[k] == v[k] {
    }
  }

  /** A pixel whose first m channels are zero is left unchanged, whatever
      the square root returns. */
  lemma ProjectZero(v: seq<real>, m: nat, r: real, sqrt: real -> real)
    requires m <= |v| && r != 0.0
    requires forall k :: 0 <= k < m ==> v[k] == 0.0
    ensures Project(v, m, r, sqrt) == v
  {
    var pv := Project(v, m, r, sqrt);
    forall k | 0 <= k < |v| ensures pv[k] == v[k] {
    }
  }

  /** With a negative radius nothing is ever clipped: n/r is never above one. */
  lemma ProjectNegativeRadius(v: seq<real>, m: nat, r: real, sqrt: real -> real)
    requires m <= |v| && r < 0.0 && IsSqrt(sqrt)
    ensures Project(v, m, r, sqrt) == v
  {
    var pv := Project(v, m, r, sqrt);
    assert PixelNorm(v, m, sqrt) >= 0.0;
    forall k | 0 <= k < |v| ensures pv[k] == v[k] {
    }
  }

  /** A pixel outside the ball is scaled onto its sphere: its new norm is r. */
  lemma ProjectOutsideBall(v: seq<real>, m: nat, r: real, sqrt: real -> real)
    requires m <= |v| && r > 0.0 && IsSqrt(sqrt) && PixelNorm(v, m, sqrt) > r
    ensures PixelNorm(Project(v, m, r, sqrt), m, sqrt) == r
  {
    var n := PixelNorm(v, m, sqrt);
    var f := Factor(n, r);
    var pv := Project(v, m, r, sqrt);
    assert pv[..m] == DivV(v[..m], f);
    SumSqDiv(v[..m], f);
    RescaledSquare(SumSq(v[..m]), n, r, f);
    SqrtOfSquare(sqrt, r);
  }

  /** After the projection every pixel is within the ball. */
  lemma ProjectWithinBall(v: seq<real>, m: nat, r: real, sqrt: real -> real)
    requires m <= |v| && r > 0.0 && IsSqrt(sqrt)
    ensures PixelNorm(Project(v, m, r, sqrt), m, sqrt) <= r
  {
    if PixelNorm(v, m, sqrt) <= r {
      ProjectInsideBall(v, m, r, sqrt);
    } else {
      ProjectOutsideBall(v, m, r, sqrt);
    }
  }

  /** Projecting twice is projecting once. */
  lemma ProjectIdempotent(v: seq<real>, m: nat, r: real, sqrt: real -> real)
    requires m <= |v| && r > 0.0 && IsSqrt(sqrt)
    ensures Project(Project(v, m, r, sqrt), m, r, sqrt) == Project(v, m, r, sqrt)
  {
    ProjectWithinBall(v, m, r, sqrt);
    ProjectInsideBall(Project(v, m, r, sqrt), m, r, sqrt);
  }

  // Field-level properties.

  lemma ProjectFieldWithinBall(f: Field, m: nat, r: real, sqrt: real -> real)
    requires HasChannels(f, m) && r > 0.0 && IsSqrt(sqrt)
    ensures HasChannels(ProjectField(f, m, r, sqrt), m)
    ensures WithinBall(ProjectField(f, m, r, sqrt), m, r, sqrt)
  {
    var g := ProjectField(f, m, r, sqrt);
    assert Width(g) == Width(f) && Depth(g) == Depth(f);
    forall i, j | 0 <= i < |g| && 0 <= j < |g[i]|
      ensures PixelNorm(g[i][j], m, sqrt) <= r
    {
      ProjectWithinBall(f[i][j], m, r, sqrt);
    }
  }

  /** A field already within the ball is left unchanged. */
  lemma ProjectFieldInsideBall(f: Field, m: nat, r: real, sqrt: real -> real)
    requires HasChannels(f, m) && r > 0.0 && WithinBall(f, m, r, sqrt)
    ensures ProjectField(f, m, r, sqrt) == f
  {
    var g := ProjectField(f, m, r, sqrt);
    forall i | 0 <= i < |f| ensures g[i] == f[i] {
      forall j | 0 <= j < |f[i]| ensures g[i][j] == f[i][j] {
        ProjectInsideBall(f[i][j], m, r, sqrt);
      }
    }
  }

  lemma ProjectFieldIdempotent(f: Field, m: nat, r: real, sqrt: real -> real)
    requires HasChannels(f, m) && r > 0.0 && IsSqrt(sqrt)
    ensures HasChannels(ProjectField(f, m, r, sqrt), m)
    ensures ProjectField(ProjectField(f, m, r, sqrt), m, r, sqrt) == ProjectField(f, m, r, sqrt)
  {
    ProjectFieldWithinBall(f, m, r, sqrt);
    ProjectFieldInsideBall(ProjectField(f, m, r, sqrt), m, r, sqrt);
  }

  /** The zero field is left unchanged (the solver's initial p and q). */
  lemma ProjectFieldZero(f: Field, m: nat, r: real, sqrt: real -> real)
    requires HasChannels(f, m) && r != 0.0 && IsZeroField(f)
    ensures ProjectField(f, m, r, sqrt) == f
  {
    var g := ProjectField(f, m, r, sqrt);
    forall i | 0 <= i < |f| ensures g[i] == f[i] {
      forall j | 0 <= j < |f[i]| ensures g[i][j] == f[i][j] {
        ProjectZero(f[i][j], m, r, sqrt);
      }
    }
  }

  /** A vector of zeros has sum of squares zero. */
  lemma {:induction false} SumSqZero(x: seq<real>)
    requires forall k :: 0 <= k < |x| ==> x[k] == 0.0
    ensures SumSq(x) == 0.0
  {
    if |x| > 0 {
      SumSqZero(x[1..]);
    }
  }

  /** The zero field lies within every ball of non-negative radius. */
  lemma ZeroFieldWithinBall(f: Field, m: nat, r: real, sqrt: real -> real)
    requires HasChannels(f, m) && r >= 0.0 && IsSqrt(sqrt) && IsZeroField(f)
    ensures WithinBall(f, m, r, sqrt)
  {
    assert Square(sqrt(0.0)) == 0.0 == Square(0.0);
    SquareInjective(sqrt(0.0), 0.0);
    forall i, j | 0 <= i < |f| && 0 <= j < |f[i]| ensures PixelNorm(f[i][j], m, sqrt) <= r {
      assert |f[i][j]| == Depth(f);
      SumSqZero(f[i][j][..m]);
    }
  }

  // The imperative form: copy, then divide channel slices in place.

  /** The values held by a three-dimensional array. */
  function Contents3(a: array3<real>): (f: Field)
    reads a
    ensures IsField(f, a.Length0, a.Length1, a.Length2)
  {
    seq(a.Length0, i requires 0 <= i < a.Length0 reads a =>
      seq(a.Length1, j requires 0 <= j < a.Length1 reads a =>
        seq(a.Length2, k requires 0 <= k < a.Length2 reads a => a[i, j, k])))
  }

  /** `slice_mut(s![.., .., k]) /= &factor`: channel k of every pixel is
      divided by that pixel's factor; every other entry is unchanged. */
  method DivideChannel(a: array3<real>, k: nat, factor: Plane)
    requires k < a.Length2 && IsPlane(factor, a.Length0, a.Length1)
    requires forall i, j :: 0 <= i < a.Length0 && 0 <= j < a.Length1 ==> factor[i][j] != 0.0
    modifies a
    ensures forall i, j, l :: 0 <= i < a.Length0 && 0 <= j < a.Length1 && 0 <= l < a.Length2 ==>
      a[i, j, l] == if l == k then old(a[i, j, l]) / factor[i][j] else old(a[i, j, l])
  {
    for i := 0 to a.Length0
      invariant forall i', j, l :: 0 <= i' < a.Length0 && 0 <= j < a.Length1 && 0 <= l < a.Length2 ==>
        a[i', j, l] == if l == k && i' < i then old(a[i', j, l]) / factor[i'][j] else old(a[i', j, l])
    {
      for j := 0 to a.Length1
        invariant forall i', j', l :: 0 <= i' < a.Length0 && 0 <= j' < a.Length1 && 0 <= l < a.Length2 ==>
          a[i', j', l] == if l == k && (i' < i || (i' == i && j' < j))
                          then old(a[i', j', l]) / factor[i'][j'] else old(a[i', j', l])
      {
        a[i, j, k] := a[i, j, k] / factor[i][j];
      }
    }
  }

  /** The divisors of all pixels (`norm.map(..)`), computed from the input
      before any channel is divided. */
  function FactorPlane(f: Field, m: nat, r: real, sqrt: real -> real): (d: Plane)
    requires HasChannels(f, m) && r != 0.0
    ensures IsPlane(d, |f|, Width(f))
    ensures forall i, j :: 0 <= i < |f| && 0 <= j < Width(f) ==> d[i][j] >= 1.0
  {
    seq(|f|, i requires 0 <= i < |f| =>
      seq(|f[i]|, j requires 0 <= j < |f[i]| => Factor(PixelNorm(f[i][j], m, sqrt), r)))
  }

  /** `p.to_owned()` as a fresh array. */
  method CopyToArray(f: Field) returns (a: array3<real>)
    requires IsField(f, |f|, Width(f), Depth(f))
    ensures fresh(a)
    ensures a.Length0 == |f| && a.Length1 == Width(f) && a.Length2 == Depth(f)
    ensures Contents3(a) == f
  {
    a := new real[|f|, Width(f), Depth(f)]((i, j, k) =>
      if 0 <= i < |f| && 0 <= j < |f[i]| && 0 <= k < |f[i][j]| then f[i][j][k] else 0.0);
    assert Contents3(a) == f by {
      var g := Contents3(a);
      forall i | 0 <= i < |f| ensures g[i] == f[i] {
        forall j | 0 <= j < |f[i]| ensures g[i][j] == f[i][j] {
        }
      }
    }
  }

  /** `proj_p`: copy p, then divide channels 0 and 1 of every pixel by its
      factor. The result is the two-channel projection of every pixel. */
  method ProjP(p: Field, r: real, sqrt: real -> real) returns (res: Field)
    requires HasChannels(p, 2) && r != 0.0
    ensures res == ProjectField(p, 2, r, sqrt)
  {
    var factor := FactorPlane(p, 2, r, sqrt);
    var a := CopyToArray(p);
    if a.Length0 > 0 && a.Length1 > 0 {
      DivideChannel(a, 0, factor);
      DivideChannel(a, 1, factor);
    }
    res := Contents3(a);
    ProjectedContents(p, 2, r, sqrt, res);
  }

  /** `proj_q`: the same with channels 0, 1 and 2. */
  method ProjQ(q: Field, r: real, sqrt: real -> real) returns (res: Field)
    requires HasChannels(q, 3) && r != 0.0
    ensures res == ProjectField(q, 3, r, sqrt)
  {
    var factor := FactorPlane(q, 3, r, sqrt);
    var a := CopyToArray(q);
    if a.Length0 > 0 && a.Length1 > 0 {
      DivideChannel(a, 0, factor);
      DivideChannel(a, 1, factor);
      DivideChannel(a, 2, factor);
    }
    res := Contents3(a);
    ProjectedContents(q, 3, r, sqrt, res);
  }

  /** A field whose first m channels are divided by the factors and whose
      other channels are copied is the projected field. */
  lemma ProjectedContents(f: Field, m: nat, r: real, sqrt: real -> real, g: Field)
    requires HasChannels(f, m) && r != 0.0
    requires IsField(g, |f|, Width(f), Depth(f))
    requires forall i, j, l :: 0 <= i < |f| && 0 <= j < Width(f) && 0 <= l < Depth(f) ==>
      g[i][j][l] == if l < m then f[i][j][l] / FactorPlane(f, m, r, sqrt)[i][j] else f[i][j][l]
    ensures g == ProjectField(f, m, r, sqrt)
  {
    var h := ProjectField(f, m, r, sqrt);
    forall i | 0 <= i < |f| ensures g[i] == h[i] {
      forall j | 0 <= j < |f[i]| ensures g[i][j] == h[i][j] {
      }
    }
  }
}
