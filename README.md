# TGV denoiser — a Dafny model

This project models the numerical core of a second-order Total Generalized
Variation (TGV) image denoiser (`src/tgv.rs`) and proves properties of it:

- **Circular shifts** (`Roll`): `roll2d`, the periodic shift that every
  finite difference is built from, and `roll1d`, which the source defines
  but never calls and which is modelled for completeness.
- **Finite differences** (`FiniteDifferences`): `gradient`, `divergence`,
  `sym_gradient` and `sym_divergence`, written exactly as the code writes
  them: forward differences `roll2d(y, axis, -1) - y` and backward
  differences `y - roll2d(y, axis, 1)`.
- **Projections** (`Projection`): `proj_p` and `proj_q`, which clip the
  per-pixel channel vector of the dual fields to a ball. They are modelled
  imperatively, as the code does it:
  - compute the per-pixel factor plane;
  - copy the field into a three-dimensional array;
  - divide each channel slice by it in place;
  - prove the result equals a per-pixel specification function.
- **Solver** (`Solver`): `tgv_denoise`, the primal-dual loop over the mutable
  state `u, w, p, q, u_bar, w_bar`. The loop body is a method proved equal
  to a specification function `Step`. The loop is proved to compute
  `Denoised`, which is `Step` iterated `max(n_iter, 0)` times from `Init`.
- **Tiling** (`Tiling`): `parallel_tgv_denoise`. It has two nested loops:
  - the first pushes 32×32 tiles in row-major order;
  - the second assigns each denoised tile into a zero-initialised
    two-dimensional array.

  The per-tile denoiser is a function parameter of `TileDenoise`.
  `ParallelTgvDenoise` instantiates it with `Denoised`.

`Grid` holds the array types (`Plane` = H×W, `Field` = H×W×C with the channel
vector last, as `stack![Axis(2), ..]` lays it out), element-wise arithmetic,
channel slicing and stacking, and the plain inner products used to state
adjointness.

Arithmetic is exact (`real`). The square root inside the projections is a
parameter `sqrt: real -> real`. The lemmas that need it to be the real
square root require `IsSqrt(sqrt)`.

Two behaviours of the code depart from common readings, and the model
follows the code:

- `divergence` is the plain transpose of `gradient`, not the usual
  convention div = −∇ᵀ. In `GradientAdjoint`, Σ gradient(a)·b equals
  +Σ a·divergence(b). This is the sign the primal step
  `u - tau·divergence(p)` needs.
- A negative projection radius never clips, because `x / r > 1` never holds
  for `x ≥ 0` and `r < 0` (`ProjectNegativeRadius`). A negative radius is
  therefore not read as "clip everything". A zero radius does clip every
  dual pixel to zero in `f32`; that case is not modelled (see "Left out").

## Model

| member | source | states |
|---|---|---|
| Roll.Rotate | src/tgv.rs:12-15 | `concatenate![a[-k..], a[..-k]]` has the input's length; its elements are given by `RotateAt` |
| Roll.RotateAt | src/tgv.rs:12-15 | element i of `concatenate![a[-k..], a[..-k]]` is `a[(i - k) mod n]` |
| Roll.RotateRoundTrip | src/tgv.rs:12-15 | rotating by -k undoes rotating by k |
| Roll.RotateAdjoint | src/tgv.rs:12-15 | rotating one side of an inner product by k equals rotating the other by -k |
| Roll.Roll1d | src/tgv.rs:10-16 | the result has the input's length and element i is `a[(i - k) mod n]`, so a zero amount copies |
| Roll.Roll2d | src/tgv.rs:19-28 | the result has the input's shape; an axis other than 0 and 1 returns the input unchanged |
| Roll.Roll2dAt | src/tgv.rs:21-24 | element (i, j) comes from row (i - k) mod H for axis 0 and from column (j - k) mod W for axis 1 |
| Roll.RollRoundTrip | src/tgv.rs:19-28 | rolling by -k restores an array rolled by k |
| Roll.RollAdjoint | src/tgv.rs:19-28 | rolling is orthogonal: its transpose under the inner product is the roll by -k |
| FiniteDifferences.ForwardDifference | src/tgv.rs:31-32 | `roll2d(y, axis, -1) - y` is an H×W plane |
| FiniteDifferences.ForwardDifferenceAt | src/tgv.rs:31-32 | the forward difference at (i, j) is the next pixel along the axis, wrapped, minus the current one |
| FiniteDifferences.BackwardDifference | src/tgv.rs:38-41 | `y - roll2d(y, axis, 1)` is an H×W plane |
| FiniteDifferences.BackwardDifferenceAt | src/tgv.rs:38-41 | the backward difference at (i, j) is the current pixel minus the previous one along the axis, wrapped |
| FiniteDifferences.Gradient | src/tgv.rs:30-35 | `gradient` of an H×W image is an H×W×2 field |
| FiniteDifferences.GradientAt | src/tgv.rs:30-35 | channel 0 is the periodic forward difference along a row, channel 1 down a column |
| FiniteDifferences.Divergence | src/tgv.rs:37-43 | `divergence` of an H×W×2 field is an H×W plane |
| FiniteDifferences.DivergenceAt | src/tgv.rs:37-43 | the divergence at (i, j) is minus the sum of the backward differences of channel 0 along a row and channel 1 down a column |
| FiniteDifferences.SymGradient | src/tgv.rs:45-60 | `sym_gradient` of an H×W×2 field is an H×W×3 field |
| FiniteDifferences.SymGradientAt | src/tgv.rs:45-60 | the two diagonal channels are forward differences of w0 along a row and w1 down a column; the third is half the sum of the cross differences |
| FiniteDifferences.SymDivergenceFirst | src/tgv.rs:64-68 | the first component of `sym_divergence` is an H×W plane |
| FiniteDifferences.SymDivergenceSecond | src/tgv.rs:70-74 | the second component of `sym_divergence` is an H×W plane |
| FiniteDifferences.SymDivergence | src/tgv.rs:62-76 | `sym_divergence` of an H×W×3 field is an H×W×2 field |
| FiniteDifferences.SymDivergenceAt | src/tgv.rs:62-76 | each component is minus a backward difference of a diagonal channel minus half a backward difference of the off-diagonal channel |
| FiniteDifferences.ForwardDifferenceAdjoint | src/tgv.rs:31-41 | Σ forward-difference(v)·y = -Σ backward-difference(y)·v along the same axis |
| FiniteDifferences.GradientAdjoint | src/tgv.rs:30-43 | Σ gradient(a)·b = Σ a·divergence(b): `divergence` is the transpose of `gradient` |
| FiniteDifferences.SymDivergencePairing | src/tgv.rs:62-76 | Σ w·sym_divergence(q) equals the channel-wise pairing of backward differences of q with w |
| FiniteDifferences.SymGradientAdjoint | src/tgv.rs:45-76 | Σ sym_gradient(w)·q = Σ w·sym_divergence(q) over all channels |
| FiniteDifferences.GradientOfConstant | src/tgv.rs:30-35 | the gradient of a constant image is the zero field |
| FiniteDifferences.DivergenceOfZero | src/tgv.rs:37-43 | the divergence of the zero field is zero |
| FiniteDifferences.SymGradientOfZero | src/tgv.rs:45-60 | the symmetrised gradient of the zero field is zero |
| FiniteDifferences.SymDivergenceOfZero | src/tgv.rs:62-76 | the symmetrised divergence of the zero field is zero |
| Projection.Factor | src/tgv.rs:82 | the divisor is at least 1; for r > 0 it exceeds 1 exactly when the norm exceeds r; for r < 0 and a nonnegative norm it is 1 |
| Projection.SumSqDiv | src/tgv.rs:79-81 | dividing a vector by d divides its sum of squares by d² |
| Projection.PixelNorm | src/tgv.rs:79-81 | under the real square root the norm is nonnegative and its square is the sum of squares of the first m channels |
| Projection.Project | src/tgv.rs:82-87 | the projected pixel keeps its length, and channels from m on are unchanged (`proj_p` divides channels 0-1, `proj_q` channels 0-2) |
| Projection.ProjectInsideBall | src/tgv.rs:82-88 | a pixel whose norm is at most r > 0 is left unchanged |
| Projection.ProjectZero | src/tgv.rs:82-88 | a pixel with zero leading channels is left unchanged for any radius |
| Projection.ProjectNegativeRadius | src/tgv.rs:82 | with a negative radius no pixel is changed |
| Projection.ProjectOutsideBall | src/tgv.rs:82-88 | a pixel whose norm exceeds r > 0 is scaled to norm exactly r |
| Projection.ProjectWithinBall | src/tgv.rs:78-89 | after the projection every pixel has norm at most r |
| Projection.ProjectIdempotent | src/tgv.rs:78-89 | projecting a pixel twice equals projecting it once |
| Projection.ProjectField | src/tgv.rs:78-105 | the projected field keeps the input's shape |
| Projection.ProjectFieldWithinBall | src/tgv.rs:78-105 | every pixel of a projected field lies in the ball |
| Projection.ProjectFieldInsideBall | src/tgv.rs:78-105 | a field already inside the ball is left unchanged |
| Projection.ProjectFieldIdempotent | src/tgv.rs:78-105 | projecting a field twice equals projecting it once |
| Projection.ProjectFieldZero | src/tgv.rs:78-105 | the zero field is left unchanged |
| Projection.ZeroFieldWithinBall | src/tgv.rs:110-112 | the zero fields p and q start inside every ball of nonnegative radius |
| Projection.FactorPlane | src/tgv.rs:79-82 | the factor plane has the field's H×W shape and every entry is at least 1 |
| Projection.CopyToArray | src/tgv.rs:83 | `to_owned` gives a fresh array with the field's dimensions and contents |
| Projection.DivideChannel | src/tgv.rs:84-87 | `slice_mut(s![.., .., k]) /= factor` divides channel k of every pixel by its factor and leaves everything else unchanged |
| Projection.ProjP | src/tgv.rs:78-89 | the copied and divided array holds the two-channel projection of every pixel |
| Projection.ProjQ | src/tgv.rs:91-105 | the copied and divided array holds the three-channel projection of every pixel |
| Solver.Init | src/tgv.rs:109-116 | the initial state has u = u_bar = u0, zero w, p, q and w_bar, all of u0's H×W shape |
| Solver.AscentP | src/tgv.rs:120-121 | `p + (grad(u_bar) - w_bar)·sigma` is an H×W×2 field |
| Solver.AscentQ | src/tgv.rs:124-125 | `q + sym_grad(w_bar)·sigma` is an H×W×3 field |
| Solver.Ascent | src/tgv.rs:121 | `x + sigma·g` is an H×W×C field that has C channels at every pixel; its entries are given by `AscentAt` |
| Solver.AscentAt | src/tgv.rs:121 | every entry of a dual ascent is the old entry plus sigma times the direction |
| Solver.DualP | src/tgv.rs:120-122 | the projected ascent on p keeps the H×W×2 shape |
| Solver.DualQ | src/tgv.rs:124-126 | the projected ascent on q keeps the H×W×3 shape |
| Solver.DescentU | src/tgv.rs:131-133 | `(u - tau·d + tau·u0)/(1 + tau)` is an H×W plane; its pixels are given by `DescentUAt` |
| Solver.PrimalU | src/tgv.rs:131-133 | the primal step on u keeps the H×W shape |
| Solver.DescentUAt | src/tgv.rs:131-133 | pixel (i, j) of the new u is `(u - tau·div + tau·u0) / (1 + tau)` |
| Solver.DescentW | src/tgv.rs:135 | `w - tau·(-p + s)` is an H×W×2 field; its entries are given by `DescentWAt` |
| Solver.PrimalW | src/tgv.rs:135 | the primal step on w keeps the H×W×2 shape |
| Solver.DescentWAt | src/tgv.rs:135 | every entry of the new w is `w - tau·(-p + sym_div(q))` |
| Solver.RelaxP | src/tgv.rs:137 | `2u - u_old` has u's shape |
| Solver.RelaxF | src/tgv.rs:138 | `2w - w_old` has w's shape |
| Solver.Step | src/tgv.rs:119-144 | one pass of the loop body keeps every array at u0's shape |
| Solver.Iterate | src/tgv.rs:119-144 | the state after k passes keeps every array at u0's shape |
| Solver.Denoised | src/tgv.rs:108-146 | the result has u0's shape, and with n_iter ≤ 0 it is u0 itself |
| Solver.Pass | src/tgv.rs:119-144 | the loop body over the mutable variables produces `Step` of the previous state |
| Solver.TgvDenoise | src/tgv.rs:108-146 | the loop runs max(n_iter, 0) times and returns `Denoised` |
| Solver.StepWithinBall | src/tgv.rs:120-126 | after every pass each pixel of p lies in the ball of radius alpha1·lam and each pixel of q in that of radius alpha0·lam |
| Solver.IterateWithinBall | src/tgv.rs:110-126 | p and q lie in their balls before the loop and after every pass |
| Solver.AscentPAtRest | src/tgv.rs:120-121 | on a constant image with zero w_bar the ascent on p from zero stays zero |
| Solver.AscentQAtRest | src/tgv.rs:124-125 | with zero q and w_bar the ascent on q stays zero |
| Solver.PrimalUAtRest | src/tgv.rs:131-133 | with p = 0 the primal step returns u0 unchanged |
| Solver.PrimalWAtRest | src/tgv.rs:135 | with w, p and q zero the primal step keeps w zero |
| Solver.RelaxAtRest | src/tgv.rs:137-138 | over-relaxing a value against itself gives the value back |
| Solver.StepAtRest | src/tgv.rs:119-144 | for a constant image the initial state is a fixed point of the loop body |
| Solver.IterateAtRest | src/tgv.rs:119-144 | for a constant image the state never leaves the initial state |
| Solver.DenoisedConstant | src/tgv.rs:108-146 | `tgv_denoise` returns a constant image unchanged, for every n_iter |
| Tiling.TileNumberBound | src/tgv.rs:173 | the row-major tile number i·ny + j of tile (i, j) is below nx·ny |
| Tiling.DivideTileNumber | src/tgv.rs:173 | every tile number below nx·ny is i·ny + j for a tile with i < nx and j < ny |
| Tiling.Patch | src/tgv.rs:161 | the tile is a 32×32 image whose pixel (r, c) is u0[32i + r][32j + c] |
| Tiling.Tiles | src/tgv.rs:157-163 | the list of the first n tile rows holds n·ny tiles; `TileAt` gives each entry |
| Tiling.TileAt | src/tgv.rs:157-163 | entry i·ny + j of the pushed tile list is the tile at tile row i, tile column j |
| Tiling.TileShape | src/tgv.rs:157-163 | every pushed tile is a non-empty 32×32 image |
| Tiling.SplitTiles | src/tgv.rs:157-163 | the nested push loops build exactly the row-major tile list |
| Tiling.AssignBlock | src/tgv.rs:173 | the 32×32 block is overwritten with the tile and every other pixel keeps its value |
| Tiling.Assemble | src/tgv.rs:170-175 | the assembled image has pixel (r mod 32, c mod 32) of tile (r/32)·ny + c/32 when r < 32·nx and c < 32·ny, and zero elsewhere |
| Tiling.TileTgv | src/tgv.rs:165-167 | `tgv_denoise` is defined on every 32×32 tile and returns a 32×32 tile |
| Tiling.TileDenoise | src/tgv.rs:148-178 | pixel (r, c) is pixel (r mod 32, c mod 32) of its own tile denoised on its own when r < 32·(H/32) and c < 32·(W/32), and 0 otherwise |
| Tiling.ParallelTgvDenoise | src/tgv.rs:148-178 | the same, with `tgv_denoise` as the per-tile denoiser |
| Tiling.TiledWithoutIterations | src/tgv.rs:148-178 | with n_iter ≤ 0 the tiled region is a copy of the input |
| Tiling.TiledConstant | src/tgv.rs:148-178 | on a constant image the tiled region keeps the constant |

## Left out

- `src/main.rs` and `src/main_old.rs` are not part of this model. They hold
  browser UI, image decoding and encoding, the RGB-to-gray conversion and the
  log-scale slider, all glue around library calls.
- `f32` arithmetic is modelled by exact reals: no rounding, no overflow, no
  NaN or infinity. Adjointness, the projections' exact norms and the constant
  fixed point hold in exact arithmetic only.
- The square root is an abstract parameter. Lemmas that need the real square
  root assume `IsSqrt`.
- Solver.ValidParams: excludes a zero radius (`alpha1·lam` or `alpha0·lam`
  equal to 0) and `tau = -1`.
  - In `f32`, a zero radius gives the factor `x/0 = +inf` for a pixel of
    nonzero norm. That pixel's channels become 0.
  - A zero pixel gives `0/0 = NaN`, which is not `> 1`, so its factor is 1
    and it stays 0.
  - So in `f32` a zero radius clips every dual pixel to zero. That case is
    not modelled.
  - `tau = -1` divides the primal step by zero.
- Projection.Factor: requires a nonzero radius; the zero-radius clipping to
  zero is not modelled.
- Projection.Project: requires a nonzero radius; the zero-radius clipping to
  zero is not modelled.
- Projection.ProjP: requires a nonzero radius; the zero-radius clipping to
  zero is not modelled.
- Projection.ProjQ: requires a nonzero radius; the zero-radius clipping to
  zero is not modelled.
- Solver.TgvDenoise: when the loop runs, it requires a non-empty image. On an
  empty axis `roll2d` slices out of range and panics. On a non-empty image,
  every roll the core makes meets `RollAllowed`: a nonzero amount (the assert
  on line 20) and an amount no larger than the rolled axis.
- Roll.Roll2d: a plane with no rows carries no width in the model. So along
  axis 1 the model accepts every nonzero amount and returns the empty plane,
  whereas `ndarray` checks the amount against the array's width. It panics
  on a 0×W array when |k| > W, and on a 0×0 array for every nonzero k. No
  roll in the core reaches this case, since each runs on a non-empty image.
- The `rayon` `par_iter` is modelled as a sequential map over the tile list.
  The tiles are independent, so the order of evaluation does not matter.
- The commented-out residual printing in the loop is not modelled.
- Convergence, stability of the `tau`/`sigma` choice and how smoothness
  depends on `lam` are numerical behaviour. The code states nothing about
  them, and they are not modelled.
- A field with no pixels carries no channel count in the model (`Depth` is 0),
  whereas `ndarray` keeps the third extent of an empty array.
- Tiling.TiledWithoutIterations and Tiling.TiledConstant: state the tiled
  region only. The rest of the image is zero by `ParallelTgvDenoise`'s
  contract.
