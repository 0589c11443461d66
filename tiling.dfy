/** `parallel_tgv_denoise`: the image is cut into PatchSize×PatchSize tiles
    numbered row-major, every tile is denoised on its own, and the results
    are written back into a zero-initialised image of the input's shape.
    Rows and columns past the last complete tile stay zero. */
module Tiling {
  import opened Grid
  import opened Solver

  const PatchSize: nat := 32

  // Integer facts about row-major tile numbers.

  lemma MulMono(a: nat, b: nat, n: nat)
    requires a <= b
    ensures a * n <= b * n
  {
  }

  /** Tile (a, b) of an nx×ny grid has a number below nx·ny. */
  lemma TileNumberBound(a: nat, b: nat, nx: nat, ny: nat)
    requires a < nx && b < ny
    ensures a * ny + b < nx * ny
  {
    MulMono(a + 1, nx, ny);
  }

  /** The PatchSize×PatchSize block of `u0` whose top-left corner is
      (i·PatchSize, j·PatchSize). */
  function Patch(u0: Plane, i: nat, j: nat): (t: Plane)
    requires IsPlane(u0, |u0|, Width(u0))
    requires (i + 1) * PatchSize <= |u0| && (j + 1) * PatchSize <= Width(u0)
    ensures IsImage(t) && IsPlane(t, PatchSize, PatchSize)
    ensures forall r, c :: 0 <= r < PatchSize && 0 <= c < PatchSize ==>
              t[r][c] == u0[i * PatchSize + r][j * PatchSize + c]
  {
    seq(PatchSize, r requires 0 <= r < PatchSize =>
      u0[i * PatchSize + r][j * PatchSize .. (j + 1) * PatchSize])
  }

  /** The tiles of tile row i, left to right. */
  function TileRow(u0: Plane, i: nat, ny: nat): (row: seq<Plane>)
    requires IsPlane(u0, |u0|, Width(u0))
    requires (i + 1) * PatchSize <= |u0| && ny * PatchSize <= Width(u0)
    ensures |row| == ny
  {
    seq(ny, j requires 0 <= j < ny => Patch(u0, i, j))
  }

  /** The tiles of the first n tile rows in the order they are pushed. */
  function Tiles(u0: Plane, n: nat, ny: nat): (ts: seq<Plane>)
    requires IsPlane(u0, |u0|, Width(u0))
    requires n * PatchSize <= |u0| && ny * PatchSize <= Width(u0)
    ensures |ts| == n * ny
  {
    if n == 0 then [] else Tiles(u0, n - 1, ny) + TileRow(u0, n - 1, ny)
  }

  /** Tile number i·ny + j is the block at tile row i, tile column j. */
  lemma {:induction false} TileAt(u0: Plane, n: nat, ny: nat, i: nat, j: nat)
    requires IsPlane(u0, |u0|, Width(u0))
    requires n * PatchSize <= |u0| && ny * PatchSize <= Width(u0)
    requires i < n && j < ny
    ensures i * ny + j < |Tiles(u0, n, ny)|
    ensures Tiles(u0, n, ny)[i * ny + j] == Patch(u0, i, j)
  {
    TileNumberBound(i, j, n, ny);
    var prev := Tiles(u0, n - 1, ny);
    if i < n - 1 {
      TileNumberBound(i, j, n - 1, ny);
      TileAt(u0, n - 1, ny, i, j);
      assert Tiles(u0, n, ny)[i * ny + j] == prev[i * ny + j];
    } else {
      assert i * ny + j == |prev| + j;
    }
  }

  /** Whether tile (a, b) comes before tile (i, j) in row-major order. */
  predicate Placed(a: nat, b: nat, i: nat, j: nat)
  {
    a < i || (a == i && b < j)
  }

  /** The shape every denoised tile has. */
  predicate AreTiles(tiles: seq<Plane>)
  {
    forall k :: 0 <= k < |tiles| ==> IsPlane(tiles[k], PatchSize, PatchSize)
  }

  /** Pixel (r, c) of the assembled image once the tiles before (i, j) are
      written: the pixel of its tile if that tile is placed, else zero. */
  function Cell(tiles: seq<Plane>, nx: nat, ny: nat, i: nat, j: nat, r: nat, c: nat): real
    requires |tiles| == nx * ny && AreTiles(tiles)
  {
    if r < nx * PatchSize && c < ny * PatchSize && Placed(r / PatchSize, c / PatchSize, i, j) then
      TileNumberBound(r / PatchSize, c / PatchSize, nx, ny);
      tiles[(r / PatchSize) * ny + c / PatchSize][r % PatchSize][c % PatchSize]
    else
      0.0
  }

  /** The values held by a two-dimensional array. */
  function Contents2(a: array2<real>): (p: Plane)
    reads a
    ensures IsPlane(p, a.Length0, a.Length1)
  {
    seq(a.Length0, i requires 0 <= i < a.Length0 reads a =>
      seq(a.Length1, j requires 0 <= j < a.Length1 reads a => a[i, j]))
  }

  /** `slice_mut(s![top..top+PatchSize, left..left+PatchSize]).assign(t)`. */
  method AssignBlock(a: array2<real>, top: nat, left: nat, t: Plane)
    requires top + PatchSize <= a.Length0 && left + PatchSize <= a.Length1
    requires IsPlane(t, PatchSize, PatchSize)
    modifies a
    ensures forall r, c :: 0 <= r < a.Length0 && 0 <= c < a.Length1 ==>
              a[r, c] == if top <= r < top + PatchSize && left <= c < left + PatchSize
                         then t[r - top][c - left] else old(a[r, c])
  {
    for r := 0 to PatchSize
      invariant forall x, y :: 0 <= x < a.Length0 && 0 <= y < a.Length1 ==>
                  a[x, y] == if top <= x < top + r && left <= y < left + PatchSize
                             then t[x - top][y - left] else old(a[x, y])
    {
      for c := 0 to PatchSize
        invariant forall x, y :: 0 <= x < a.Length0 && 0 <= y < a.Length1 ==>
                    a[x, y] == if (top <= x < top + r && left <= y < left + PatchSize) ||
                                  (x == top + r && left <= y < left + c)
                               then t[x - top][y - left] else old(a[x, y])
      {
        a[top + r, left + c] := t[r][c];
      }
    }
  }

  /** The first loop nest: push every tile in row-major order. */
  method SplitTiles(u0: Plane, nx: nat, ny: nat) returns (patches: seq<Plane>)
    requires IsPlane(u0, |u0|, Width(u0))
    requires nx * PatchSize <= |u0| && ny * PatchSize <= Width(u0)
    ensures patches == Tiles(u0, nx, ny)
  {
    patches := [];
    for i := 0 to nx
      invariant patches == Tiles(u0, i, ny)
    {
      MulMono(i + 1, nx, PatchSize);
      for j := 0 to ny
        invariant patches == Tiles(u0, i, ny) + TileRow(u0, i, ny)[..j]
      {
        MulMono(j + 1, ny, PatchSize);
        patches := patches + [Patch(u0, i, j)];
        assert TileRow(u0, i, ny)[..j + 1] == TileRow(u0, i, ny)[..j] + [Patch(u0, i, j)];
      }
      assert TileRow(u0, i, ny)[..ny] == TileRow(u0, i, ny);
    }
  }

  /** The second loop nest: a zero image of shape h×w into which tile
      i·ny + j is assigned at block (i, j). */
  method Assemble(h: nat, w: nat, nx: nat, ny: nat, tiles: seq<Plane>) returns (img: Plane)
    requires nx * PatchSize <= h && ny * PatchSize <= w
    requires |tiles| == nx * ny && AreTiles(tiles)
    ensures IsPlane(img, h, w)
    ensures forall r, c :: 0 <= r < h && 0 <= c < w ==>
              img[r][c] == if r < nx * PatchSize && c < ny * PatchSize
                           then TileNumberBound(r / PatchSize, c / PatchSize, nx, ny);
                                tiles[(r / PatchSize) * ny + c / PatchSize][r % PatchSize][c % PatchSize]
                           else 0.0
  {
    var out := new real[h, w]((_, _) => 0.0);
    for i := 0 to nx
      invariant forall r, c :: 0 <= r < h && 0 <= c < w ==> out[r, c] == Cell(tiles, nx, ny, i, 0, r, c)
    {
      MulMono(i + 1, nx, PatchSize);
      for j := 0 to ny
        invariant forall r, c :: 0 <= r < h && 0 <= c < w ==> out[r, c] == Cell(tiles, nx, ny, i, j, r, c)
      {
        MulMono(j + 1, ny, PatchSize);
        TileNumberBound(i, j, nx, ny);
        AssignBlock(out, i * PatchSize, j * PatchSize, tiles[i * ny + j]);
      }
    }
    img := Contents2(out);
    forall r, c | 0 <= r < h && 0 <= c < w && r < nx * PatchSize && c < ny * PatchSize
      ensures Placed(r / PatchSize, c / PatchSize, nx, 0)
    {
    }
  }

  /** What the denoiser does to one tile must be defined on every
      PatchSize×PatchSize plane and keep its shape. */
  ghost predicate TileSolver(solve: Plane --> Plane)
  {
    forall t :: IsPlane(t, PatchSize, PatchSize) ==>
      solve.requires(t) && IsPlane(solve(t), PatchSize, PatchSize)
  }

  /** `parallel_tgv_denoise` over any per-tile denoiser: split the image into
      tiles, map the denoiser over the tile list (the `par_iter`, as a
      sequential map), then assemble. Inside the tiled region a pixel is the
      matching pixel of its own tile denoised on its own; elsewhere zero. */
  method TileDenoise(u0: Plane, solve: Plane --> Plane) returns (img: Plane)
    requires IsPlane(u0, |u0|, Width(u0)) && TileSolver(solve)
    ensures IsPlane(img, |u0|, Width(u0))
    ensures forall r, c :: 0 <= r < |u0| && 0 <= c < Width(u0) ==>
              img[r][c] == if r < (|u0| / PatchSize) * PatchSize && c < (Width(u0) / PatchSize) * PatchSize
                           then solve(Patch(u0, r / PatchSize, c / PatchSize))[r % PatchSize][c % PatchSize]
                           else 0.0
  {
    var nx, ny := |u0| / PatchSize, Width(u0) / PatchSize;
    var patches := SplitTiles(u0, nx, ny);
    forall k | 0 <= k < |patches| ensures IsPlane(patches[k], PatchSize, PatchSize) {
      TileShape(u0, nx, ny, k);
    }
    var denoised := seq(|patches|, k requires 0 <= k < |patches| => solve(patches[k]));
    img := Assemble(|u0|, Width(u0), nx, ny, denoised);
    forall r, c | 0 <= r < |u0| && 0 <= c < Width(u0) && r < nx * PatchSize && c < ny * PatchSize
      ensures img[r][c] == solve(Patch(u0, r / PatchSize, c / PatchSize))[r % PatchSize][c % PatchSize]
    {
      TileAt(u0, nx, ny, r / PatchSize, c / PatchSize);
    }
  }

  /** The denoiser `parallel_tgv_denoise` applies to each tile. */
  function TileTgv(prm: Params, sqrt: real -> real, nIter: int): (solve: Plane --> Plane)
    requires nIter > 0 ==> ValidParams(prm)
    ensures TileSolver(solve)
  {
    t requires Runnable(t, prm, nIter) => Denoised(t, prm, sqrt, nIter)
  }

  /** `parallel_tgv_denoise`: `TileDenoise` with `tgv_denoise` on every tile. */
  method ParallelTgvDenoise(u0: Plane, lam: real, alpha0: real, alpha1: real, tau: real, sigma: real,
                            nIter: int, sqrt: real -> real) returns (img: Plane)
    requires IsPlane(u0, |u0|, Width(u0))
    requires nIter > 0 ==> ValidParams(Params(lam, alpha0, alpha1, tau, sigma))
    ensures IsPlane(img, |u0|, Width(u0))
    ensures forall r, c :: 0 <= r < |u0| && 0 <= c < Width(u0) ==>
              img[r][c] == if r < (|u0| / PatchSize) * PatchSize && c < (Width(u0) / PatchSize) * PatchSize
                           then Denoised(Patch(u0, r / PatchSize, c / PatchSize),
                                         Params(lam, alpha0, alpha1, tau, sigma), sqrt, nIter)[r % PatchSize][c % PatchSize]
                           else 0.0
  {
    img := TileDenoise(u0, TileTgv(Params(lam, alpha0, alpha1, tau, sigma), sqrt, nIter));
  }

  /** With no iterations the tiled region is copied from the input. */
  lemma TiledWithoutIterations(u0: Plane, prm: Params, sqrt: real -> real, nIter: int, r: nat, c: nat)
    requires IsPlane(u0, |u0|, Width(u0)) && nIter <= 0
    requires r < (|u0| / PatchSize) * PatchSize && c < (Width(u0) / PatchSize) * PatchSize
    ensures Denoised(Patch(u0, r / PatchSize, c / PatchSize), prm, sqrt, nIter)[r % PatchSize][c % PatchSize]
            == u0[r][c]
  {
  }

  /** On a constant image every tile is constant, so the tiled region keeps
      the constant. */
  lemma TiledConstant(u0: Plane, v: real, prm: Params, sqrt: real -> real, nIter: int, r: nat, c: nat)
    requires IsPlane(u0, |u0|, Width(u0)) && IsConstant(u0, v) && ValidParams(prm)
    requires r < (|u0| / PatchSize) * PatchSize && c < (Width(u0) / PatchSize) * PatchSize
    ensures Denoised(Patch(u0, r / PatchSize, c / PatchSize), prm, sqrt, nIter)[r % PatchSize][c % PatchSize] == v
  {
    var t := Patch(u0, r / PatchSize, c / PatchSize);
    DenoisedConstant(t, v, prm, sqrt, nIter);
  }

  /** Tile number k of the list is a PatchSize×PatchSize image. */
  lemma TileShape(u0: Plane, nx: nat, ny: nat, k: nat)
    requires IsPlane(u0, |u0|, Width(u0))
    requires nx * PatchSize <= |u0| && ny * PatchSize <= Width(u0)
    requires k < nx * ny
    ensures IsImage(Tiles(u0, nx, ny)[k]) && IsPlane(Tiles(u0, nx, ny)[k], PatchSize, PatchSize)
  {
    var i, j := DivideTileNumber(k, nx, ny);
    TileAt(u0, nx, ny, i, j);
  }

  /** Every tile number below nx·ny is i·ny + j for a tile (i, j). */
  lemma DivideTileNumber(k: nat, nx: nat, ny: nat) returns (i: nat, j: nat)
    requires k < nx * ny
    ensures i < nx && j < ny && k == i * ny + j
  {
    i, j := k / ny, k % ny;
    if i >= nx {
      MulMono(nx, i, ny);
    }
  }
}
