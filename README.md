# map-generator, modelled in Dafny

This project models the terrain and rendering pipeline of the map generator: how a heightmap is generated, shaped and coloured.

**Heightmap generation.** Three generators produce a heightmap:
- diamond-square;
- midpoint displacement;
- fractal noise: a sum of octaves of a value, gradient or simplex noise kernel.

**Shaping the heightmap.** The heightmap is a flat row-major grid of heights. It can be normalised into [0, 1], flattened around sea level, and cut into sub-maps.

**Colouring.** A colour ramp paints the map. Hill shading then lightens or darkens every land pixel by how much its slope faces the light.

**Configuration.** The configuration vocabulary holds the generator, interpolation and noise names, the built-in ramp and the command-line overrides.

**Numbers.** Heights and noise are `real`. Bytes are the `u8` newtype. The random generator is an abstract stream of draws:
- `rng(k)` is a unit draw in [0, 1);
- `pick(k, n)` reads draw `k` as an index in [0, n].

Every generator is proved to consume this stream in the source's order.

**Imperative operations.** The operations that update state in place are methods over arrays, proved against specification functions:
- `minmax`, `normalize` and `flatten` on the heightmap;
- the two displacement loops;
- the octave loop;
- the table fills and the shuffle;
- `add_step`;
- the shading pass.

**The displacement generators** are specified by the list of writes they make, their *schedule*. Replaying that list step by step gives the working grid. The properties of those generators are lemmas about the schedule: bounds, corners kept, and draw order.

## Model

| member | source | states |
|---|---|---|
| Heightmaps.Heightmap.FromVec | heightmap/src/heightmap.rs:95-108 | the map holds exactly the given cells with the given sizes; it is well formed exactly when there are `height * width` cells |
| Heightmaps.Heightmap.Get | heightmap/src/heightmap.rs:16-18 | for a cell inside the map, the height stored at flat index `y * width + x`, which is inside the buffer |
| Heightmaps.MinOf | heightmap/src/heightmap.rs:20-38 | the running minimum is one of the cells and no cell is below it |
| Heightmaps.MaxOf | heightmap/src/heightmap.rs:20-38 | the running maximum is one of the cells and no cell is above it |
| Heightmaps.Heightmap.MinMax | heightmap/src/heightmap.rs:20-38 | `None` exactly for a map without cells; otherwise a pair of actual cells, the lowest and the highest |
| Heightmaps.ConstantIffMinIsMax | heightmap/src/heightmap.rs:20-46 | a non-empty map is constant exactly when its minimum equals its maximum, the case in which `normalize` divides by zero |
| Heightmaps.Normalized | heightmap/src/heightmap.rs:40-46 | normalising keeps the number of cells, and leaves an empty map unchanged |
| Heightmaps.Rescaled | heightmap/src/heightmap.rs:43 | one cell between min and max maps into [0, 1]: the minimum to 0, the maximum to 1 |
| Heightmaps.RescaleMonotone | heightmap/src/heightmap.rs:43 | the division is increasing in the cell's height, in both directions |
| Heightmaps.NormalizedRange | heightmap/src/heightmap.rs:40-46 | after normalising, every cell is in [0, 1]; on a non-constant map the lowest cells become 0 and the highest 1 |
| Heightmaps.NormalizedKeepsOrder | heightmap/src/heightmap.rs:40-46 | on a non-constant map, two cells compare the same way after normalising as before |
| Heightmaps.NormalizedIdempotent | heightmap/src/heightmap.rs:40-46 | normalising a normalised map changes nothing |
| Heightmaps.Heightmap.Normalize | heightmap/src/heightmap.rs:40-46 | the buffer becomes the normalised cells of the old buffer; width, height and cell count are constant |
| Heightmaps.NormalizeAsWritten | heightmap/src/heightmap.rs:40-46 | the source's normalisation with an IEEE-style quotient: same number of cells |
| Heightmaps.NormalizeConstantIsNaN | heightmap/src/heightmap.rs:43 | as written, every cell of a constant map becomes NaN |
| Heightmaps.NormalizeAsWrittenAgrees | heightmap/src/heightmap.rs:40-46 | on every non-constant map the written code and the corrected model agree cell by cell |
| Heightmaps.NormalizeSingleCell | heightmap/src/heightmap.rs:43 | the one-cell map [v] gives [NaN] as written and [0] in the model |
| Heightmaps.Shape | heightmap/src/heightmap.rs:49 | the flattening curve fixes 0, 0.5 and 1 |
| Heightmaps.ShapeRange | heightmap/src/heightmap.rs:49 | the curve maps [0, 1] into [0, 1] |
| Heightmaps.ShapeMonotone | heightmap/src/heightmap.rs:49 | the curve keeps the order of heights |
| Heightmaps.ShapeSymmetric | heightmap/src/heightmap.rs:49 | the curve is symmetric about sea level: `h(1 - v) = 1 - h(v)` |
| Heightmaps.FlattenedRange | heightmap/src/heightmap.rs:48-54 | flattening a map whose cells are in [0, 1] keeps them there |
| Heightmaps.Heightmap.Flatten | heightmap/src/heightmap.rs:48-54 | every cell `v` of the old buffer becomes `h(v)`, and nothing else changes |
| Heightmaps.RowsAt | heightmap/src/heightmap.rs:74-85 | cell (c, r) of the rows cut to a column range is cell (x + c, y + r) of the source grid |
| Heightmaps.SubmapCells | heightmap/src/heightmap.rs:56-88 | the intended sub-map has `h * w` cells |
| Heightmaps.SubmapCellAt | heightmap/src/heightmap.rs:56-88 | cell (i, j) of a sub-map is cell (x + i, y + j) of the map it was cut from |
| Heightmaps.SubmapWhole | heightmap/src/heightmap.rs:64-69 | cutting the whole map out of itself gives the same cells |
| Heightmaps.SubmapAsWritten | heightmap/src/heightmap.rs:56-88 | as written: width overflow fails first, then height overflow, as the two panics do |
| Heightmaps.SubmapAsWrittenSize | heightmap/src/heightmap.rs:74-85 | as written, a sub-map at an offset has `(h - y) * (w - x)` cells rather than `h * w` |
| Heightmaps.SubmapOffsetDefect | heightmap/src/heightmap.rs:77-81 | the 1 by 1 sub-map at column 1 of the 2 by 1 map [1, 2] is empty as written, where [2] is meant |
| Heightmaps.SubmapAsWrittenAtOrigin | heightmap/src/heightmap.rs:56-88 | at offset (0, 0), the only offset the generators use, the written code gives the intended cells |
| Heightmaps.Heightmap.Submap | heightmap/src/heightmap.rs:56-88 | the width check fails first, then the height check; otherwise a fresh `w` by `h` map of the intended cells |
| Grid.MulIsProduct | heightmap/src/heightmap.rs:17 | the repeated-addition product used for row-major sizes is the product |
| Grid.IndexInBounds | heightmap/src/heightmap.rs:17 | a cell inside a `w` by `h` grid has a flat index below `h * w` |
| Grid.IndexInjective | heightmap/src/heightmap.rs:17 | distinct cells have distinct flat indices |
| Grid.DivModIndex | heightmap/src/generator2d/fractal2d.rs:51-52 | every flat index is the cell in column `i % w` and row `i / w` of the grid |
| Grid.IndexDivMod | heightmap/src/generator2d/fractal2d.rs:51-52 | the column and row of `y * w + x` are `x` and `y` again |
| Grid.CellOfIndex | heightmap/src/heightmap.rs:17 | taking a cell's flat index apart gives the cell back |
| Displacement.Pow2 | heightmap/src/generator2d/diamond2d.rs:73 | powers of two are positive |
| Displacement.Log2Ceil | heightmap/src/generator2d/diamond2d.rs:73 | the least exponent whose power is at least `n` |
| Displacement.NextPowerOfTwo | heightmap/src/generator2d/diamond2d.rs:73 | `next_power_of_two`: a power of two at least `n`, and no larger than any other such power |
| Displacement.GridSize | heightmap/src/generator2d/diamond2d.rs:73 | the working size is a power of two plus one, at least 2, and at least the width and the height |
| Displacement.SmallGridSizes | heightmap/src/generator2d/diamond2d.rs:73 | a 1 by 1 and a 2 by 2 request both give a grid of size 2 |
| Displacement.OddGridSize | heightmap/src/generator2d/midpoint2d.rs:27 | a 5 by 2 request gives size 5 |
| Displacement.ReadsInside | heightmap/src/generator2d/diamond2d.rs:36-57 | every cell a write reads is in the grid; a seed reads none, a square 4, an edge midpoint 2, and a diamond 2 to 4, so its divisor is never 0 |
| Displacement.DiagonalsMean | heightmap/src/generator2d/diamond2d.rs:17-22 | the square rule's mean is the mean of the four diagonal cells |
| Displacement.AlongMean | heightmap/src/generator2d/midpoint2d.rs:51-54 | an edge rule's mean is the mean of its two cells |
| Displacement.AroundSum | heightmap/src/generator2d/diamond2d.rs:36-55 | the diamond rule sums exactly the neighbours that are in the grid |
| Displacement.AroundCount | heightmap/src/generator2d/diamond2d.rs:36-55 | the diamond divisor counts exactly those neighbours |
| Displacement.AroundMean | heightmap/src/generator2d/diamond2d.rs:57 | the diamond rule's mean is that sum over that count |
| Displacement.ValueBounds | heightmap/src/generator2d/diamond2d.rs:24 | a seed is a draw in [0, 1); any other write is within `d` of the mean it displaces |
| Displacement.ApplyMean | heightmap/src/generator2d/diamond2d.rs:24 | a write sets its cell to the mean plus a draw from `[-d, d)`, and changes no other cell |
| Displacement.ReplayNext | heightmap/src/generator2d/diamond2d.rs:84-105 | replaying one more write applies it, with the next draw, to the grid the earlier writes leave |
| Displacement.ReplaySplit | heightmap/src/generator2d/diamond2d.rs:84-105 | replaying two lists in a row is replaying the first list, then the second from the draw after the first list |
| Displacement.RunSplit | heightmap/src/generator2d/midpoint2d.rs:38-65 | the same split for the grids the methods state |
| Displacement.ReplayUntouched | heightmap/src/generator2d/diamond2d.rs:84-105 | a cell that no write targets keeps its value through the replay |
| Displacement.Seeds | heightmap/src/generator2d/diamond2d.rs:77-80 | the seeding writes are four, one per corner |
| Displacement.SeedsReplay | heightmap/src/generator2d/diamond2d.rs:77-80 | corner `k` holds the unit sample of draw `k`, in the order (0,0), (size-1,0), (0,size-1), (size-1,size-1) |
| Displacement.SeedsKept | heightmap/src/generator2d/midpoint2d.rs:31-34 | a corner that no later write targets keeps its seeded draw |
| Displacement.SeedCorners | heightmap/src/generator2d/diamond2d.rs:77-80 | the four corner writes leave the grid that replaying the seeding writes gives |
| Displacement.Seeded | heightmap/src/generator2d/diamond2d.rs:74-80 | a fresh zeroed `size * size` grid with its four corners seeded |
| Displacement.CentreBounds | heightmap/src/generator2d/diamond2d.rs:89-90 | the strided centres of a level lie at least `d_2` from the grid's sides |
| Displacement.CentreOdd | heightmap/src/generator2d/diamond2d.rs:89-90 | every centre of level `d` is an odd multiple of `d_2` |
| Displacement.CornerNotOdd | heightmap/src/generator2d/diamond2d.rs:77-80 | the corner coordinates 0 and `size - 1` are never odd multiples of `d_2` |
| Displacement.OddWritesAvoidCorners | heightmap/src/generator2d/diamond2d.rs:84-105 | writes that each have a coordinate which is an odd multiple of `d_2` never land on a corner |
| Diamond2d.Edges | heightmap/src/generator2d/diamond2d.rs:97-100 | each centre makes exactly four `diamond` calls |
| Diamond2d.CentreEdges | heightmap/src/generator2d/diamond2d.rs:95-100 | the four `diamond` calls of a centre are the model's calls, and they read and write inside the grid |
| Diamond2d.CentreSquare | heightmap/src/generator2d/diamond2d.rs:89-91 | the `square` call of a centre reads and writes inside the grid |
| Diamond2d.DiamondStepsInBounds | heightmap/src/generator2d/diamond2d.rs:38-58 | every read and write of a centre's `diamond` calls is in the grid |
| Diamond2d.LevelsInBounds | heightmap/src/generator2d/diamond2d.rs:84-105 | every read and write of the halving loop stays inside the `size` by `size` grid |
| Diamond2d.ScheduleInBounds | heightmap/src/generator2d/diamond2d.rs:77-105 | every read and write of the whole run is in the grid |
| Diamond2d.Schedule | heightmap/src/generator2d/diamond2d.rs:77-105 | the writes of the run begin with the four corner seeds |
| Diamond2d.LevelsAvoidCorners | heightmap/src/generator2d/diamond2d.rs:84-105 | no write of the halving loop targets a corner |
| Diamond2d.FinalGrid | heightmap/src/generator2d/diamond2d.rs:74-105 | the working grid after the loop has `size * size` cells |
| Diamond2d.CornersKeepFirstDraws | heightmap/src/generator2d/diamond2d.rs:77-105 | at the end of the loop, corner `k` still holds draw `k` |
| Diamond2d.TwoByTwo | heightmap/src/generator2d/diamond2d.rs:82-84 | with `size = 2` the loop does not run: the grid is the four seeded corners |
| Diamond2d.Square | heightmap/src/generator2d/diamond2d.rs:12-25 | `square` sets the centre to the mean of its four diagonals plus a draw from `[-d, d)`, and changes no other cell |
| Diamond2d.SquareMean | heightmap/src/generator2d/diamond2d.rs:17-22 | the four reads, summed and divided by 4, give the square rule's mean |
| Diamond2d.Diamond | heightmap/src/generator2d/diamond2d.rs:27-59 | `diamond` sets the cell to the mean of its in-grid neighbours plus a draw, and changes no other cell |
| Diamond2d.DiamondMean | heightmap/src/generator2d/diamond2d.rs:36-57 | the guarded `sum` and `count` loop gives the diamond rule's mean |
| Diamond2d.SquareLevel | heightmap/src/generator2d/diamond2d.rs:89-93 | the square loops make the level's square writes in order, x outer and y inner, one draw each |
| Diamond2d.DiamondLevel | heightmap/src/generator2d/diamond2d.rs:95-102 | the diamond loops make four writes per centre in order, one draw each |
| Diamond2d.Level | heightmap/src/generator2d/diamond2d.rs:85-104 | one turn of the halving loop is the square pass, then the diamond pass, continuing the draw stream |
| Diamond2d.DiamondSquare | heightmap/src/generator2d/diamond2d.rs:71-105 | the seeding and the halving loop, which terminates, leave exactly the replayed final grid |
| Diamond2d.Generated | heightmap/src/generator2d/diamond2d.rs:68-108 | the generated map has `height * width` cells |
| Diamond2d.Cropped | heightmap/src/generator2d/diamond2d.rs:107 | the crop has `height * width` cells |
| Diamond2d.Crop | heightmap/src/generator2d/diamond2d.rs:107 | `submap(0, 0, width, height)` of the working grid does not fail and gives the cropped cells |
| Diamond2d.Generate | heightmap/src/generator2d/diamond2d.rs:68-108 | a fresh `width` by `height` map of the cropped final grid |
| Midpoint2d.Midpoints | heightmap/src/generator2d/midpoint2d.rs:56-60 | each centre makes exactly five writes |
| Midpoint2d.MidpointsInBounds | heightmap/src/generator2d/midpoint2d.rs:43-60 | whenever a centre's square is in the grid, so are the five writes and all their reads |
| Midpoint2d.CentreMidpoints | heightmap/src/generator2d/midpoint2d.rs:43-60 | the strided centres give the five writes, and they are in bounds |
| Midpoint2d.LevelsSafe | heightmap/src/generator2d/midpoint2d.rs:38-65 | every write of the halving loop is in the grid, and none targets a corner |
| Midpoint2d.ScheduleInBounds | heightmap/src/generator2d/midpoint2d.rs:31-65 | every read and write of the whole run is in the grid |
| Midpoint2d.Schedule | heightmap/src/generator2d/midpoint2d.rs:31-65 | the writes of the run begin with the four corner seeds |
| Midpoint2d.FinalGrid | heightmap/src/generator2d/midpoint2d.rs:28-65 | the working grid after the loop has `size * size` cells |
| Midpoint2d.CornersKeepFirstDraws | heightmap/src/generator2d/midpoint2d.rs:31-65 | at the end of the loop, corner `k` still holds draw `k` |
| Midpoint2d.TwoByTwo | heightmap/src/generator2d/midpoint2d.rs:36-38 | with `size = 2` the loop does not run: the grid is the four seeded corners |
| Midpoint2d.KeepCorners | heightmap/src/generator2d/midpoint2d.rs:56-60 | a write in the centre's row or column leaves the four corners of its square unchanged |
| Midpoint2d.CentreMean | heightmap/src/generator2d/midpoint2d.rs:50 | the centre takes the mean of the four corners |
| Midpoint2d.AlongYMean | heightmap/src/generator2d/midpoint2d.rs:51-52 | top and bottom each take the mean of the two corners of their edge |
| Midpoint2d.AlongXMean | heightmap/src/generator2d/midpoint2d.rs:53-54 | left and right each take the mean of the two corners of their edge |
| Midpoint2d.MidpointMeanIsMean | heightmap/src/generator2d/midpoint2d.rs:45-54 | the five values computed from the corners read once are the means the five writes' rules take |
| Midpoint2d.ReadCorners | heightmap/src/generator2d/midpoint2d.rs:45-48 | the four reads are the corners of the centre's square |
| Midpoint2d.Write | heightmap/src/generator2d/midpoint2d.rs:56-60 | one write sets its cell to the mean plus a draw from `[-d, d)`, and changes no other cell |
| Midpoint2d.Displace | heightmap/src/generator2d/midpoint2d.rs:56-60 | the `k`-th write is the next scheduled write, and the corners read earlier stay unchanged |
| Midpoint2d.MidpointWrites | heightmap/src/generator2d/midpoint2d.rs:45-60 | one centre makes its five writes in order, consuming five draws |
| Midpoint2d.Level | heightmap/src/generator2d/midpoint2d.rs:39-64 | one turn of the halving loop is five writes per centre, x outer and y inner |
| Midpoint2d.MidpointDisplacement | heightmap/src/generator2d/midpoint2d.rs:25-65 | the seeding and the halving loop, which terminates, leave exactly the replayed final grid |
| Midpoint2d.Generated | heightmap/src/generator2d/midpoint2d.rs:22-68 | the generated map has `height * width` cells |
| Midpoint2d.Cropped | heightmap/src/generator2d/midpoint2d.rs:67 | the crop has `height * width` cells |
| Midpoint2d.Crop | heightmap/src/generator2d/midpoint2d.rs:67 | the crop does not fail and gives the cropped cells |
| Midpoint2d.Generate | heightmap/src/generator2d/midpoint2d.rs:22-68 | a fresh `width` by `height` map of the cropped final grid |
| Fractal2d.Octaves | heightmap/src/generator2d/fractal2d.rs:28-41 | with no octaves the sum is 0 |
| Fractal2d.OneOctave | heightmap/src/generator2d/fractal2d.rs:33-38 | one octave is the noise itself at (x, y) |
| Fractal2d.OctavesNext | heightmap/src/generator2d/fractal2d.rs:34-37 | octave `k` adds the noise at frequency `lacunarity^k`, weighted by `persistance^k` |
| Fractal2d.Get | heightmap/src/generator2d/fractal2d.rs:28-41 | the octave loop returns the sum over `k < octave` of `noise(x lac^k, y lac^k) pers^k` |
| Fractal2d.SamplePoint | heightmap/src/generator2d/fractal2d.rs:48-52 | cell (x, y) is sampled at `(x, y) * scale / height`, and cell 0 at the origin |
| Fractal2d.SampleRange | heightmap/src/generator2d/fractal2d.rs:48-52 | with a positive scale, the sample x lies in `[0, scale * width / height)` and the sample y in `[0, scale)` |
| Fractal2d.Generated | heightmap/src/generator2d/fractal2d.rs:51-56 | `width * height` cells; cell (x, y) is `get` at the sample point of its column and row |
| Fractal2d.Generate | heightmap/src/generator2d/fractal2d.rs:47-57 | a fresh `width` by `height` map of the generated cells, whatever the random source |
| Lattice.Identity | noise2d/src/value2d.rs:17-20 | the table before the shuffle holds `i` at position `i` |
| Lattice.IdentityCounts | noise2d/src/value2d.rs:17-20 | the identity holds each byte below `n` once and no other byte |
| Lattice.FillIdentity | noise2d/src/value2d.rs:17-20 | the enumerate loop leaves the identity table |
| Lattice.SwapAt | noise2d/src/value2d.rs:21 | a swap exchanges the two entries |
| Lattice.Swap | noise2d/src/value2d.rs:21 | the in-place swap leaves the table with the two entries exchanged |
| Lattice.SwapAtPermutes | noise2d/src/value2d.rs:21 | a swap is a permutation |
| Lattice.ShuffleFrom | noise2d/src/value2d.rs:21 | the shuffle keeps the table's length |
| Lattice.ShufflePermutes | noise2d/src/value2d.rs:21 | whatever the draws, the shuffle is a permutation of its input |
| Lattice.ShuffleKeepsTail | noise2d/src/value2d.rs:21 | the shuffle never touches the positions it has already fixed |
| Lattice.ShuffleStep | noise2d/src/value2d.rs:21 | one pass swaps the last unfixed position with a picked one, using one draw |
| Lattice.Shuffle | noise2d/src/value2d.rs:21 | the in-place shuffle leaves the specified permutation and uses `n - 1` draws |
| Lattice.PermutationsArePermutation | noise2d/src/gradient2d.rs:37-41 | the table `new` builds holds every byte exactly once |
| Lattice.NewPermutations | noise2d/src/simplex2d.rs:26-30 | a fresh table, filled and shuffled, reading the first 255 draws |
| Lattice.MaskIsMod | noise2d/src/value2d.rs:37-38 | `& 0xFF` is `% 256` |
| Lattice.Idx | noise2d/src/value2d.rs:36-40 | the hash of a lattice point is below 256 and is one of the table's entries |
| Lattice.IdxPeriodicX | noise2d/src/gradient2d.rs:57-61 | the hash repeats every 256 cells along x |
| Lattice.IdxPeriodicY | noise2d/src/simplex2d.rs:35-39 | the hash repeats every 256 cells along y |
| Random.Sample | noise2d/src/value2d.rs:23-27 | a `Range::new(lo, hi)` sample lies in `[lo, hi)` |
| Value2d.Values | noise2d/src/value2d.rs:23-27 | 256 sampled values, each in [0, 1) |
| Value2d.FillValues | noise2d/src/value2d.rs:24-27 | the sampling loop fills the table in draw order, one draw per value |
| Value2d.New | noise2d/src/value2d.rs:16-34 | the table is a permutation of the bytes from the first 255 draws; the next 256 draws give values in [0, 1) |
| Value2d.At | noise2d/src/value2d.rs:46-61 | with an interpolant that keeps its start, at whole coordinates the noise is the value of the corner the cast selects |
| Value2d.AtLatticePoint | noise2d/src/value2d.rs:46-61 | at a lattice point, with an interpolant that keeps its start, the noise is the point's own value |
| Value2d.AtRange | noise2d/src/value2d.rs:46-61 | on non-negative coordinates, with an interpolant that stays between its values, the noise is in [0, 1) |
| Value2d.AtPeriodicX | noise2d/src/value2d.rs:46-61 | on non-negative coordinates the noise repeats every 256 units along x |
| Value2d.AtPeriodicY | noise2d/src/value2d.rs:46-61 | the noise repeats every 256 units along y |
| Gradient2d.Dot | noise2d/src/gradient2d.rs:28-30 | a vector dotted with itself is never negative |
| Gradient2d.DotZero | noise2d/src/gradient2d.rs:28-30 | dotting with the zero offset gives 0 |
| Gradient2d.UnitVector | noise2d/src/gradient2d.rs:45-47 | `(cos t, sin t)` has unit length |
| Gradient2d.Gradients | noise2d/src/gradient2d.rs:43-48 | 256 gradients, each of unit length |
| Gradient2d.FillGradients | noise2d/src/gradient2d.rs:43-48 | the sampling loop fills the gradients in draw order, one angle per draw |
| Gradient2d.New | noise2d/src/gradient2d.rs:36-55 | the table is a permutation of the bytes; the gradients have unit length; `2 * 256 - 1` draws are read |
| Gradient2d.At | noise2d/src/gradient2d.rs:67-83 | with an interpolant that keeps its start, at whole coordinates the noise is exactly 0.5 |
| Gradient2d.AtLatticePoint | noise2d/src/gradient2d.rs:67-83 | at a lattice point, with an interpolant that keeps its start, the noise is exactly 0.5 |
| Gradient2d.AtPeriodicX | noise2d/src/gradient2d.rs:67-83 | on non-negative coordinates the noise repeats every 256 units along x |
| Gradient2d.AtPeriodicY | noise2d/src/gradient2d.rs:67-83 | the noise repeats every 256 units along y |
| Simplex2d.MaskSevenIsMod | noise2d/src/simplex2d.rs:11 | `& 7` is `% 8` |
| Simplex2d.Grad | noise2d/src/simplex2d.rs:10-22 | the eight directions cover every hash; the result is bounded by `abs(x) + abs(y)` and is 0 at the origin |
| Simplex2d.GradMask | noise2d/src/simplex2d.rs:10-22 | `grad` depends only on the low three bits of the hash |
| Simplex2d.GradOdd | noise2d/src/simplex2d.rs:10-22 | `grad(h, -x, -y) = -grad(h, x, y)` |
| Simplex2d.New | noise2d/src/simplex2d.rs:25-33 | the table holds every byte once and is built from the first 255 draws |
| Simplex2d.Hash | noise2d/src/simplex2d.rs:35-39 | the byte hash is the lattice hash |
| Simplex2d.MiddleCorner | noise2d/src/simplex2d.rs:55 | the middle corner is one step along x exactly when `x0 > y0`, else one step along y |
| Simplex2d.Locate | noise2d/src/simplex2d.rs:44-62 | each offset is the point minus its corner of the simplex, unskewed |
| Simplex2d.Falloff | noise2d/src/simplex2d.rs:64-66 | `t` is at most 0.5, and is 0.5 exactly on the corner |
| Simplex2d.Contribution | noise2d/src/simplex2d.rs:68-90 | a corner with negative `t` contributes nothing, and so does the corner the point sits on |
| Simplex2d.N0 | noise2d/src/simplex2d.rs:68-74 | the first corner contributes nothing when its falloff is negative or the point sits on it |
| Simplex2d.N1 | noise2d/src/simplex2d.rs:76-82 | the middle corner contributes nothing when its falloff is negative |
| Simplex2d.N2 | noise2d/src/simplex2d.rs:84-90 | the last corner contributes nothing when its falloff is negative |
| Simplex2d.VertexFarCorners | noise2d/src/simplex2d.rs:55-66 | on a corner of the simplex grid, the other two corners are outside their radius |
| Simplex2d.At | noise2d/src/simplex2d.rs:43-93 | when no corner contributes, and on every corner of the simplex grid, the noise is exactly 0.5 |
| Simplex2d.AtOrigin | noise2d/src/simplex2d.rs:43-93 | `at(0, 0) = 0.5` |
| Interpolate.Lerp | src/interpolate.rs:14-16 | `lerp` gives `v0` at 0 and `v1` at 1, gives `v` for `lerp(v, v, t)`, and stays between the two for t in [0, 1] |
| Interpolate.Linear | src/interpolate.rs:18-21 | `linear` keeps both endpoints and stays between them |
| Interpolate.CubicWeight | src/interpolate.rs:23 | the cubic weight fixes 0, 0.5 and 1 and stays in [0, 1] on [0, 1] |
| Interpolate.CubicSymmetric | src/interpolate.rs:23 | the cubic weight is symmetric about (0.5, 0.5) |
| Interpolate.Cubic | src/interpolate.rs:22-25 | `cubic` keeps both endpoints, is the midpoint blend at 0.5, and stays between them |
| Interpolate.QuinticWeight | src/interpolate.rs:27 | the quintic weight fixes 0, 0.5 and 1 and stays in [0, 1] on [0, 1] |
| Interpolate.QuinticSymmetric | src/interpolate.rs:27 | the quintic weight is symmetric about (0.5, 0.5) |
| Interpolate.Quintic | src/interpolate.rs:26-29 | `quintic` keeps both endpoints and stays between them |
| Interpolate.CosineWeight | src/interpolate.rs:31 | with `cos 0 = 1` and `cos PI = -1`, the cosine weight is 0 at 0 and 1 at 1, and always in [0, 1] |
| Interpolate.Cosine | src/interpolate.rs:30-33 | `cosine` keeps both endpoints and stays between them |
| Interpolate.Get | src/interpolate.rs:36-43 | each variant selects its own easing function; every one keeps both endpoints and stays between them |
| Colors.New | image/src/color.rs:58-72 | `red`, `green` and `blue` give back the channels in the order they were passed |
| Colors.Channel | image/src/color.rs:81-84 | the channel is the whole part of `(1 - t) * l + t * r`, truncated, never saturated; it lies between the two channels, gives the left channel at 0 and the right at 1 |
| Colors.Lerp | image/src/color.rs:75-88 | `t < 0` gives `left` and `t > 1` gives `right`; for t in [0, 1] each channel is the truncated blend of the two channels; equal colours blend to themselves |
| Images.Image.FromPixels | image/src/color_ramp.rs:99 | a fresh image of the given size holding the given pixels |
| Images.Image.Pixel | image/src/color_ramp.rs:99 | the colour at flat index `y * width + x` |
| ColorRamps.Position | image/src/color_ramp.rs:73 | the first step at or above `v`; `None` exactly when every step is below `v` |
| ColorRamps.Slot | image/src/color_ramp.rs:73-76 | the insertion point is after every step below `v` and before every step at or above it |
| ColorRamps.Inserted | image/src/color_ramp.rs:73-76 | one step longer: the old steps keep their order, and the new step sits in front of every step at or above it |
| ColorRamps.InsertedAscending | image/src/color_ramp.rs:67-77 | `add_step` keeps an ascending ramp ascending |
| ColorRamps.InsertedAbove | image/src/color_ramp.rs:75 | a step above every existing step is pushed at the end |
| ColorRamps.ColorRamp.constructor | image/src/color_ramp.rs:63-65 | a new ramp has no steps |
| ColorRamps.ColorRamp.AddStep | image/src/color_ramp.rs:67-77 | the steps become the old steps with the new one inserted |
| ColorRamps.Weight | image/src/color_ramp.rs:92 | in the blending branch the divisor is positive and `t` is in (0, 1], reaching 1 exactly at the upper step |
| ColorRamps.ColorRamp.Get | image/src/color_ramp.rs:79-96 | the first colour at or below the first step; the last colour above every step; a step's own colour at its height; otherwise the blend of the two surrounding steps at weight `(pos - lower) / (upper - lower)` |
| ColorRamps.GetAtLastStep | image/src/color_ramp.rs:88-94 | on a strictly ascending ramp, the last step's height gets exactly the last colour |
| ColorRamps.ColorRamp.ApplyOn | image/src/color_ramp.rs:98-100 | an image of the map's size whose pixel (x, y) is the ramp's colour for height (x, y) |
| Shading.Dot | image/src/shade.rs:15-17 | a vector dotted with itself is never negative |
| Shading.SlopeX | image/src/shade.rs:55-61 | the difference along x is 0 on a flat row |
| Shading.SlopeY | image/src/shade.rs:63-69 | the difference along y is 0 on a flat column |
| Shading.SlopeOfEvenRow | image/src/shade.rs:55-61 | on a row of evenly rising heights, the border and central differences are all twice the slope |
| Shading.SlopeOfEvenColumn | image/src/shade.rs:63-69 | on a column of evenly rising heights, the border and central differences are all twice the slope |
| Shading.SqrtFour | image/src/shade.rs:71 | the non-negative square root of 4 is 2 |
| Shading.UnitLength | image/src/shade.rs:71-73 | dividing `(-nx, -ny, 2)` by `n` with `n^2 = nx^2 + ny^2 + 4` gives unit length |
| Shading.Normal | image/src/shade.rs:54-74 | the normal has unit length and points up, and is (0, 0, 1) on flat ground |
| Shading.NormalDirection | image/src/shade.rs:71-73 | the normal points along `(-nx, -ny, 2)`: its horizontal parts are the differences scaled by `-z / 2`, which with unit length and `z > 0` fixes it |
| Shading.ShadeColor | image/src/shade.rs:90-98 | `c1` below 0 and `c0` above 1; on [0, 0.5) the blend from `c1` to the pixel at `2d`, on [0.5, 1] the blend from the pixel to `c0` at `2d - 1`; the pixel itself at 0.5 |
| Shading.ShadedPixel | image/src/shade.rs:85-98 | water pixels (height at most 0.5) keep their colour; land pixels are shaded at `dot(light, normal) * 35 + 0.5` |
| Shading.ShadedCellAt | image/src/shade.rs:83-84 | flat cell `y * w + x` is pixel (x, y) |
| Shading.ShadeAt | image/src/shade.rs:85-99 | the loop body changes pixel (x, y) only |
| Shading.Shade | image/src/shade.rs:82-102 | every pixel becomes the shading of its own old colour, whatever the visiting order; the size is unchanged |
| Config.GeneratorName | src/config.rs:37-45 | a generator's name is an entry of `VARIANTS` |
| Config.GeneratorFromStr | src/config.rs:27-34 | accepts exactly the three names, each naming the generator it came from; any other string is the error message |
| Config.GeneratorRoundTrip | src/config.rs:21-45 | reading a generator's name back gives the same generator |
| Config.InterpolationName | src/config.rs:90-99 | an interpolation's name is an entry of `VARIANTS` |
| Config.InterpolationFromStr | src/config.rs:79-88 | accepts exactly the four names; any other string is the error message |
| Config.InterpolationRoundTrip | src/config.rs:73-99 | reading an interpolation's name back gives the same interpolation |
| Config.NoiseName | src/config.rs:142-150 | a noise's name is an entry of `VARIANTS` |
| Config.NoiseFromStr | src/config.rs:132-140 | accepts exactly the three names; any other string is the error message |
| Config.NoiseRoundTrip | src/config.rs:126-150 | reading a noise's name back gives the same noise |
| Config.DefaultStepsShape | src/config.rs:217-225 | the built-in ramp has nine strictly ascending steps, from 0 to 1 |
| Config.AddStepAbove | src/config.rs:217-225 | each call of `default_ramp`, whose height is above the steps already present, appends its step |
| Config.DefaultRamp | src/config.rs:214-228 | the nine `add_step` calls leave exactly the built-in steps, in order |
| Config.SetOutput | src/config.rs:291-297 | `Some` replaces the output path and `None` changes nothing; no other field changes |
| Config.SetSeed | src/config.rs:303-309 | `Some` replaces the seed and `None` changes nothing; no other field changes |

## Left out

- Input and output are not modelled. This covers:
  - command-line parsing and the pipeline driver (`src/main.rs`, `src/map_generator.rs`);
  - reading and writing YAML configurations;
  - every serde `Serialize`/`Deserialize` implementation, including the `ColorStep` and `Vec3` string formats;
  - the grayscale export (`image/src/to_image.rs`) and saving the PNG.
- `default_seed` draws from the operating system's randomness, so it is not modelled. The other defaults are constants.
- The random generator is not modelled; the model keeps only the order of draws:
  - `StdRng` becomes one abstract stream.
  - `Range::new(lo, hi)` sampling is the affine image `lo + (hi - lo) * u` of a unit draw `u`.
  - `Rng::shuffle` is the backwards swap loop, with each swap index an abstract draw `pick(k, n) <= n`.
  - Unit draws and index draws are read from the same numbered stream, and nothing else about them is assumed.
- Floating point is modelled as real arithmetic. The following are not modelled:
  - rounding, NaN (except in `NormalizeAsWritten`), infinities, `-0.0`, and `mul_add` fusion;
  - the `is_sign_positive` tests of the simplex kernel, which are modelled as `t >= 0`.
- `PI`, `SQRT_2`, `F2` and `G2` are decimal literals.
- `sin`, `cos` and `sqrt` are function parameters. The only facts assumed are that `cos 0 = 1`, `cos PI = -1`, `cos` stays in [-1, 1], `sin^2 + cos^2 = 1`, and `sqrt` is a non-negative square root.
- Integer widths are not modelled:
  - `u32` wrap-around of `y * width + x`, `width * height` and `x + width`;
  - `usize` overflow of `x + perm[..]` in `idx`.
  - `as usize` is truncation, with negative inputs saturating to 0.
- Value2d.AtPeriodicX: periodicity is proved only for non-negative coordinates. The same holds for Value2d.AtPeriodicY, Gradient2d.AtPeriodicX and Gradient2d.AtPeriodicY, and Value2d.AtRange requires non-negative coordinates too. Negative coordinates saturate the cast to 0 while their fraction stays negative.
- Fractal2d.Octaves: no bound on the fractal's value is stated. The noise is an arbitrary function parameter of the model.
- Shading.Normal requires a map at least two cells wide and high, and so do Shading.ShadedPixel and Shading.Shade. On a one-cell-wide map the source reads outside the row or underflows `x - 1`.
- ColorRamps.ColorRamp.Get requires a non-empty ramp, as does ColorRamps.ColorRamp.ApplyOn. The source panics on `last().unwrap()`.
- Ascending order of a ramp is not a class invariant, because a ramp read from a configuration file is taken as written. `InsertedAscending` proves that `add_step` keeps an ascending ramp ascending.
- Diamond2d.Generate requires a width or a height of at least 1, as do Midpoint2d.Generate and Displacement.GridSize. With both zero, the source underflows `max(width, height) - 1`.
- Heightmaps.Heightmap.Normalize sends a constant map to all zeros instead of the source's NaN; see Findings.
- Heightmaps.Heightmap.Submap takes the intended `h` rows of `w` cells at every offset; see Findings.
  - Its two panics become `Err` results.
  - On a map with no columns, at a size other than the map's own, the source panics in `chunks(0)`, while the model returns an empty map. `SubmapAsWritten` keeps that error.
- The image buffer is a row-major array of colours, not `ImageBuffer`'s byte buffer.
- `apply_on` goes through `from_fn` and is modelled through the pixel sequence it evaluates.
- `Heightmap::width`, `height`, `heights` and the configuration getters are plain field reads. They are the class fields.
- The configuration record is a value, because its setters take it and return it by value.
- `lerp` truncates each channel with `as u8`; it does not round.

## Findings

| source | as written | input that shows it | evidently intended | confidence | as-written member | corrected member |
|---|---|---|---|---|---|---|
| heightmap/src/heightmap.rs:77-81 | a sub-map at an offset takes `height - y` rows of `width - x` cells | the 2 by 1 map [1, 2], `submap(1, 0, 1, 1)` gives no cell | `height` rows of `width` cells starting at (x, y): [2] | not executed | Heightmaps.SubmapOffsetDefect | Heightmaps.SubmapCellAt |
| heightmap/src/heightmap.rs:43 | `normalize` divides by `max - min` even when it is 0 | the 1 by 1 map [v] gives [NaN] | a constant map normalised to a defined value (0 here) | not executed | Heightmaps.NormalizeConstantIsNaN | Heightmaps.NormalizedRange |
