/** The circular shift (`roll1d`, `roll2d`) on which every difference
    operator is built: `concatenate![a[-k..], a[..-k]]` along one axis,
    where ndarray counts a negative slice bound from the end. */
module Roll {
  import opened Grid

  /** The index at which `a[-k..]` starts in a sequence of length n. */
  function CutPoint(n: nat, k: int): (m: nat)
    requires -k <= n && k <= n
    ensures m <= n
  {
    if k <= 0 then -k else n - k
  }

  /** Euclidean remainder of a value at most one period away from [0, n). */
  lemma ModNear(x: int, n: int)
    requires n > 0 && -n <= x < 2 * n
    ensures x % n == if x < 0 then x + n else if x < n then x else x - n
  {
  }

  /** `concatenate![a[-k..], a[..-k]]`: the element at i comes from
      position (i - k) mod n, as numpy's `roll` does. */
  function Rotate<T>(a: seq<T>, k: int): (r: seq<T>)
    requires -|a| <= k <= |a|
    ensures |r| == |a|
  {
    var m := CutPoint(|a|, k);
    a[m..] + a[..m]
  }

  lemma RotateAt<T>(a: seq<T>, k: int)
    requires -|a| <= k <= |a|
    ensures forall i :: 0 <= i < |a| ==> Rotate(a, k)[i] == a[(i - k) % |a|]
  {
    forall i | 0 <= i < |a| ensures Rotate(a, k)[i] == a[(i - k) % |a|] {
      ModNear(i - k, |a|);
    }
  }

  /** Shifting by -k undoes a shift by k. */
  lemma RotateRoundTrip<T>(a: seq<T>, k: int)
    requires -|a| <= k <= |a|
    ensures Rotate(Rotate(a, k), -k) == a
  {
    var n, m := |a|, CutPoint(|a|, k);
    var b := Rotate(a, k);
    assert b == a[m..] + a[..m];
    if k == 0 {
      assert b == a;
    } else {
      assert CutPoint(n, -k) == n - m;
      assert b[n - m..] == a[..m];
      assert b[..n - m] == a[m..];
    }
  }

  lemma DotSwap(x1: seq<real>, x2: seq<real>, y1: seq<real>, y2: seq<real>)
    requires |x1| == |y2| && |x2| == |y1|
    ensures Dot(x2 + x1, y1 + y2) == Dot(x1 + x2, y2 + y1)
  {
    DotAppend(x2, x1, y1, y2);
    DotAppend(x1, x2, y2, y1);
  }

  /** Shifting one side of an inner product by k is shifting the other by -k. */
  lemma RotateAdjoint(x: seq<real>, y: seq<real>, k: int)
    requires |x| == |y| && -|x| <= k <= |x|
    ensures Dot(Rotate(x, k), y) == Dot(x, Rotate(y, -k))
  {
    var n, m := |x|, CutPoint(|x|, k);
    if k == 0 {
      assert Rotate(x, k) == x by { assert x[0..] + x[..0] == x; }
      assert Rotate(y, -k) == y by { assert y[0..] + y[..0] == y; }
    } else {
      var x1, x2, y1, y2 := x[..m], x[m..], y[..n - m], y[n - m..];
      calc {
        Dot(Rotate(x, k), y);
        { assert Rotate(x, k) == x2 + x1; assert y == y1 + y2; }
        Dot(x2 + x1, y1 + y2);
        { DotSwap(x1, x2, y1, y2); }
        Dot(x1 + x2, y2 + y1);
        { assert x == x1 + x2; assert CutPoint(n, -k) == n - m; assert Rotate(y, -k) == y2 + y1; }
        Dot(x, Rotate(y, -k));
      }
    }
  }

  /** `roll1d`: no check on the amount; a zero shift returns a copy. */
  function Roll1d(a: seq<real>, k: int): (r: seq<real>)
    requires -|a| <= k <= |a|
    ensures |r| == |a|
    ensures forall i :: 0 <= i < |a| ==> r[i] == a[(i - k) % |a|]
  {
    RotateAt(a, k);
    Rotate(a, k)
  }

  /** What `roll2d` demands: the asserted nonzero amount, and slice bounds
      within the rolled axis (ndarray panics otherwise). */
  predicate RollAllowed(a: Plane, axis: nat, k: int)
  {
    IsPlane(a, |a|, Width(a)) && k != 0 &&
    (axis == 0 ==> -|a| <= k <= |a|) &&
    (axis == 1 && |a| > 0 ==> -k <= Width(a) && k <= Width(a))
  }

  /** `roll2d`: rows are rotated for axis 0, each row for axis 1, and any
      other axis gives back an unchanged copy. */
  function Roll2d(a: Plane, axis: nat, k: int): (r: Plane)
    requires RollAllowed(a, axis, k)
    ensures IsPlane(r, |a|, Width(a))
    ensures axis != 0 && axis != 1 ==> r == a
  {
    if axis == 0 then
      Rotate(a, k)
    else if axis == 1 then
      seq(|a|, i requires 0 <= i < |a| => Rotate(a[i], k))
    else
      a
  }

  /** Element (i, j) of the result comes from (i - k) mod H along axis 0 and
      from (j - k) mod W along axis 1. */
  lemma Roll2dAt(a: Plane, axis: nat, k: int)
    requires RollAllowed(a, axis, k)
    ensures axis == 0 ==> forall i, j :: 0 <= i < |a| && 0 <= j < Width(a) ==>
      Roll2d(a, axis, k)[i][j] == a[(i - k) % |a|][j]
    ensures axis == 1 ==> forall i, j :: 0 <= i < |a| && 0 <= j < Width(a) ==>
      Roll2d(a, axis, k)[i][j] == a[i][(j - k) % Width(a)]
  {
    if axis == 0 {
      RotateAt(a, k);
    } else if axis == 1 {
      forall i | 0 <= i < |a| {
        RotateAt(a[i], k);
      }
    }
  }

  /** Rolling by -k restores the array rolled by k; in particular rolling by
      -1 and then by +1 is the identity. */
  lemma RollRoundTrip(a: Plane, axis: nat, k: int)
    requires RollAllowed(a, axis, k)
    ensures RollAllowed(Roll2d(a, axis, k), axis, -k)
    ensures Roll2d(Roll2d(a, axis, k), axis, -k) == a
  {
    var b := Roll2d(a, axis, k);
    if axis == 0 {
      RotateRoundTrip(a, k);
    } else if axis == 1 {
      var c := Roll2d(b, 1, -k);
      forall i | 0 <= i < |a| ensures c[i] == a[i] {
        RotateRoundTrip(a[i], k);
      }
    }
  }

  lemma {:induction false} RowsRollAdjoint(a: Plane, b: Plane, k: int)
    requires SameShape(a, b)
    requires forall i :: 0 <= i < |a| ==> -|a[i]| <= k <= |a[i]|
    ensures SameShape(seq(|a|, i requires 0 <= i < |a| => Rotate(a[i], k)), b)
    ensures SameShape(a, seq(|b|, i requires 0 <= i < |b| => Rotate(b[i], -k)))
    ensures Dot2(seq(|a|, i requires 0 <= i < |a| => Rotate(a[i], k)), b)
         == Dot2(a, seq(|b|, i requires 0 <= i < |b| => Rotate(b[i], -k)))
  {
    var ra := seq(|a|, i requires 0 <= i < |a| => Rotate(a[i], k));
    var rb := seq(|b|, i requires 0 <= i < |b| => Rotate(b[i], -k));
    if |a| > 0 {
      RotateAdjoint(a[0], b[0], k);
      RowsRollAdjoint(a[1..], b[1..], k);
      assert ra[1..] == seq(|a[1..]|, i requires 0 <= i < |a[1..]| => Rotate(a[1..][i], k));
      assert rb[1..] == seq(|b[1..]|, i requires 0 <= i < |b[1..]| => Rotate(b[1..][i], -k));
    }
  }

  /** Rolling is orthogonal: its transpose under the plain inner product is
      the roll by the opposite amount. */
  lemma RollAdjoint(a: Plane, b: Plane, axis: nat, k: int)
    requires RollAllowed(a, axis, k) && IsPlane(b, |a|, Width(a))
    ensures RollAllowed(b, axis, -k)
    ensures Dot2(Roll2d(a, axis, k), b) == Dot2(a, Roll2d(b, axis, -k))
  {
    assert Width(b) == Width(a);
    if axis == 0 {
      var n, m := |a|, CutPoint(|a|, k);
      if n > 0 {
        assert CutPoint(n, -k) == n - m;
        assert b == b[..n - m] + b[n - m..];
        assert a == a[..m] + a[m..];
        Dot2Append(a[m..], a[..m], b[..n - m], b[n - m..]);
        Dot2Append(a[..m], a[m..], b[n - m..], b[..n - m]);
      }
    } else if axis == 1 {
      RowsRollAdjoint(a, b, k);
    }
  }
}
