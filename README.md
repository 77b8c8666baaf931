# t-fractal core in Dafny

t-fractal draws a self-similar density field by tiling a small binary seed
toroidally at every scale 2^i and summing the tiles. This project models
the integer core of its two pages:

- **3d.js**, the 3D slice viewer. Its seed is an n-by-n-by-n 0/1 cube,
  modelled as an `array3<int>`. The model covers:
  - allocation, and the ring seed;
  - the symmetric random seed: per-layer orbit draws, then the Z mirror;
  - wiping and resizing the live seed;
  - `computeSlice2D`, which sums the tiles for one Z slice and scans the
    result for min, max and range.
  The page's globals (`iterations`, `sizexy`, `seed3d`, `seedSize`) are the
  fields of the class `Viewer3D.Viewer`.
- **tfractal.js**, the 2D page. Its seed is a square pattern (`seq<seq<int>>`),
  initially the 4-by-4 ring literal. `init` fills the global field, of edge
  2^10, and scans it. The globals are the class `TFractal.Fractal`; the
  global `array` is the field `field`, because `array` is a Dafny keyword.

Modules:
- `Grid`: powers of two, the number of levels, the border of a square, and
  the division facts behind self-similarity.
- `FieldRange`: the min/max/range scan, which both files perform in the same way.
- `Orbit`: the four-fold symmetry, the canonical triangle, and the order of
  the random draws.
- `Seed3D`: seed construction.
- `Viewer3D`: the 3D page's state and its slice generator.
- `TFractal`: the 2D page.

`Math.random` is an input. Each genLayer call draws one bit per canonical
cell `i <= j && i + j <= n - 1`, in loop order. `draws[z]` holds layer z's
bits; the bit for cell (i, j) is `draws[z][Rank(n, i, j)]`. The last draw,
which picks the mirroring transform, is the parameter `useRot180`.

The branch named `useRot180` reads `s[y][n-1-x][z]`. That is a quarter
turn, not a half turn. The model uses the formula, as the code does. With
either transform every layer keeps the four-fold symmetry
(`Seed3D.RandomSeedSymmetric`).

## Model

| member | source | states |
|---|---|---|
| `Seed3D.AllocSeed3D` | 3d.js:45-54 | a fresh n×n×n cube whose every cell equals `fill` |
| `Seed3D.MakeRingSeed3D` | 3d.js:57-66 | a fresh 0/1 n-cube: a cell is 1 exactly when x or y is 0 or n-1, and each (x, y) column has the same value in every z layer |
| `Seed3D.Bit` | 3d.js:76 | a draw becomes 0 or 1, and 1 exactly when the draw is true |
| `Orbit.Canon` | 3d.js:73-75 | every cell lies in the orbit of a cell of the canonical triangle, so the orbits written by genLayer cover the whole layer |
| `Orbit.CanonOfOrbit` | 3d.js:77-80 | each of the four cells written for canonical (i, j) has (i, j) as its representative |
| `Orbit.OrbitsDisjoint` | 3d.js:75-80 | two canonical cells whose orbits share a cell are the same cell, so no cell is written from two draws |
| `Orbit.CanonSymmetric` | 3d.js:77-80 | the four cells of an orbit (x,y), (y,x), (n-1-x,n-1-y), (n-1-y,n-1-x) share one representative |
| `Orbit.RankInRange` | 3d.js:73-76 | the draw made at a canonical cell is among the CanonCount(n) draws of its layer |
| `Orbit.RankInjective` | 3d.js:73-76 | distinct canonical cells use distinct draws |
| `Seed3D.WriteOrbit` | 3d.js:77-80 | the four orbit cells of (i, j) in layer z get v and no other cell changes |
| `Seed3D.GenLayer` | 3d.js:72-84 | afterwards every cell of layer z holds the draw of its orbit's canonical cell, and every other layer is unchanged |
| `Seed3D.LayerSymmetric` | 3d.js:72-84 | a generated layer satisfies s[x][y] = s[y][x] = s[n-1-x][n-1-y] = s[n-1-y][n-1-x] |
| `Seed3D.CanonicalCellHoldsItsDraw` | 3d.js:75-80 | in a generated layer, canonical cell (i, j) holds exactly its own draw, number Rank(n, i, j), so the layer is fixed by the canonical draws |
| `Seed3D.GenCount` | 3d.js:86-87 | genCount is ceil(n/2): twice it is n or n+1 |
| `Seed3D.MirrorLayer` | 3d.js:92-101 | layer n-1-z becomes layer z, copied plainly or read at (y, n-1-x) when useRot180; every other layer is unchanged |
| `Seed3D.MirroredLayer` | 3d.js:86-101 | for z < n/2 the target layer n-1-z is at least genCount, which is above every layer the mirror reads, and it ends up equal to layer z (plain or rotated) |
| `Seed3D.RandomCell` | 3d.js:69-104 | every cell of the random seed is 0 or 1 |
| `Seed3D.MakeRandomSeed3D` | 3d.js:69-104 | a fresh 0/1 n-cube equal cell for cell to RandomCell, with the four-fold symmetry in every layer |
| `Seed3D.RandomSeedSymmetric` | 3d.js:72-101 | every layer of the random seed, generated or mirrored, has the four-fold in-plane symmetry |
| `Viewer3D.Viewer.constructor` | 3d.js:8-14 | the initial globals: 8 iterations, sizexy = 2^8, no seed, seed edge 4 |
| `Viewer3D.Viewer.WipeSeed` | 3d.js:154-159 | every cell of the live cube becomes 0, in place; the cube and its size stay the same |
| `Viewer3D.Truthy` | 3d.js:190 | a copied cell is 1 exactly when the old cell is non-zero, otherwise 0 |
| `Viewer3D.Viewer.ResizeSeed` | 3d.js:178-191 | a fresh n-cube; cells with all coordinates below min(old size, n) take the old cell as 0/1, every other cell is 0, and all cells are 0 with no old seed |
| `Viewer3D.Viewer.SetRingSeed` | 3d.js:165-166 | the live seed becomes the ring seed of edge seedSize |
| `Viewer3D.Viewer.RandomizeSeed` | 3d.js:171-172 | the live seed becomes the random seed of edge seedSize drawn from `draws` |
| `Viewer3D.SumSlice` | 3d.js:219-236 | slice[x][y] is the sum over levels i < iterations-1 of seed[(x/2^i)%n][(y/2^i)%n][(zSlice/2^i)%n] |
| `Viewer3D.SliceSumBounds` | 3d.js:225-236 | with a 0/1 seed, k levels sum to a value in [0, k] |
| `Viewer3D.SliceSelfSimilar` | 3d.js:225-236 | one more level at a point whose coordinates halve to (x, y, z) is the finest tile there plus the coarser field at (x, y, z) |
| `Viewer3D.Viewer.ComputeSlice2D` | 3d.js:218-248 | a fresh sizexy-square slice with the closed-form cell values; min and max bound every cell and are attained; range is max-min or 1; since a live seed is always 0/1, 0 <= min <= max <= iterations-1 |
| `FieldRange.ScanRange` | 3d.js:238-247 | min <= every cell <= max, both attained by some cell, range = max-min when non-zero and 1 otherwise, so range >= 1 |
| `TFractal.LiteralSeedIsRing` | tfractal.js:6-11 | the literal is a 4×4 0/1 square whose cell is 1 exactly on the border, the rule of 3d.js:61 |
| `TFractal.ZeroField` | tfractal.js:18-24 | a fresh size×size field with every cell 0 |
| `TFractal.AddLevels` | tfractal.js:26-39 | from a zero field, cell (x, y) becomes the sum over levels i < levels of pattern[(x/2^i)%L][(y/2^i)%L] |
| `TFractal.PatternSumBounds` | tfractal.js:28-39 | with a 0/1 pattern, k levels sum to a value in [0, k] |
| `TFractal.PatternSelfSimilar` | tfractal.js:28-39 | one more level at (2x+a, 2y+b) is the finest tile there plus the coarser field at (x, y) |
| `TFractal.LiteralFieldInRange` | tfractal.js:1-39 | for the literal seed and iterations = 10, every field cell lies in [0, 9] |
| `TFractal.Fractal.constructor` | tfractal.js:4-15 | the page starts with the ring literal as seed and no field |
| `TFractal.Fractal.Init` | tfractal.js:17-49 | a fresh 2^10-square field with the closed-form cell values; min and max bound every cell and are attained; range is max-min or 1; with a 0/1 seed every value is in [0, 9] |
| `TFractal.BoxValue` | tfractal.js:183 | a checkbox becomes 0 or 1, and 1 exactly when it is checked |
| `TFractal.Fractal.ApplySeed` | tfractal.js:174-188 | the seed becomes the 0/1 grid of the checked boxes; the regenerated field has the closed-form cell values; min and max bound every cell and are attained; range is max-min or 1; and 0 <= min <= max <= 9 |

## Left out

- DOM and UI plumbing is not modelled. In 3d.js: `updateGlobalSettings`, `toggleSeedTools`, `renderSeedEditor`, `applySeedFromGrid`, `onModeChange`, `updateZSlice`, `updateLevel`, `init`, and the input reads of `resizeSeedFromUI`. In tfractal.js: `generateCheckboxGrid`, `wipeCheckboxGrid`, `enableGenerateButton`, and the checkbox reads of `applySeed`, whose results are the `checked` parameter.
- Rendering (`renderCurrentSlice`, `renderColorModeOnly`) is not modelled. It is canvas output, and its grayscale and hsl modes use floating-point division.
- `Math.random` itself is not modelled; its draws are the inputs `draws` and `useRot180`.
- `1 << iterations` is taken as the exact power of two; its 32-bit overflow for iterations of 31 and more is not modelled.
- Cell values are integers. Non-numeric JavaScript values (undefined, NaN) are not modelled.
- A seed of edge 0 is not modelled for slice computation, because `% 0` gives NaN: ComputeSlice2D requires seedSize >= 1.
- The unused `newSizexy` (tfractal.js:31) and the UI-only `sizez`, `pixelSize`, `currentZ` and `level` are not modelled.
- Nested JavaScript arrays are one `array3`/`array2` each, so rows shared between two cubes are not modelled.
- FieldRange.ScanRange: min and max start at the first cell instead of +Infinity/-Infinity. The results are the same, because the field is never empty (its edge is 2^iterations >= 1).
- Viewer3D.Viewer.WipeSeed: requires a live seed. With no seed the source throws a TypeError before changing anything.
- Seed3D.MakeRandomSeed3D: requires exactly one bit per canonical cell for each generated layer (`DrawsFit`). That is the number of draws the source makes.
