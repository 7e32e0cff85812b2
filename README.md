# js-cube transform engine in Dafny

This project models the sticker-transform engine of js-cube. The engine represents an N×N Rubik's cube as six flat, row-major faces keyed by the face letters U, L, F, R, B and D. The model has five parts.

- **Adjacency table** (`src/band_map.js`). For every reference face, the table lists the four neighbouring edges that turn with it.
  - Module `BandMap` holds the table as the constant function `Band`.
  - It also proves the table's shape: four distinct side faces per row, edge kinds fixed by the axis, and opposite rows mirroring each other.
- **Face transforms** (`src/cube.js`). Module `Faces` covers `chunk`, `unchunk`, `readChunk`, `writeChunk` and `turnFace`.
  - `chunk`, `unchunk` and `writeChunk` are methods, each proved equal to a specification function: `Chunked`, `Unchunked` and `Written`.
  - `Chunk` has the source's loops for both kinds. `Unchunk` has the loops of the column branch; its row branch is the `reduce` concatenation. `WriteChunk` has no loop: it chunks the face, resolves the index, orients and replaces the chunk, and unchunks, step by step as the source does.
  - `readChunk` and `turnFace` are functions.
  - Every operation is tied to a cell-level description: the sticker in row r and column c is `At(face, n, r, c)`. The round trips and group laws are proved from that description.
- **Cube state**. Module `CubeState` models the cube as a value: a map from the six face letters to n-by-n faces.
- **Band turns**. Module `Bands` covers `turnBand`.
  - The method `TurnBand` has the source's two loops: read four edges, cycle them, write them back. It is proved equal to `BandTurned`.
  - The laws are proved for any table row of four distinct faces. They cover which cells change, inverses, order four, 90 twice equal to 180, and the fact that turning the opposite face's band at the mirrored depth addresses the same cells.
  - `BandTurnLaws` restates the frame and the group laws for the band of each of the six table rows. The method `TurnBand` and `OppositeBandsAgree` do the same for the cycle, the kept faces and the opposite-band agreement.
- **Whole-cube rotations**. Module `Rotations` covers `rotateX`, `rotateY` and `rotateZ`, with their inverse and half-turn laws.
  - The `-90` branch of `rotateZ` is not the inverse of its `90` branch (see Findings). `RotateZCorrected` states the evidently intended branch and proves it.

Module `Examples` restates every case of the repository's test suite (tests/cube_test.js) as a lemma about the model:
- chunking, and reading and writing rows and columns at every depth, on the 3×3 face 1..9;
- the three face turns;
- the eight band turns and the nine rotations on a 2×2 cube whose stickers are labelled by face and position.

The size n is explicit, with `|face| == n * n`, where the source derives it with `Math.sqrt`. Degree arguments are unrestricted integers, and each fallback branch of the source is modelled as written.

## Model

| member | source | states |
|---|---|---|
| BandMap.Band | src/band_map.js:5-42 | The adjacency table: each of the six reference faces maps to exactly four entries (face, rows/cols, in order, reversed), copied entry for entry |
| BandMap.BandNamesTheSideFaces | src/band_map.js:6-41 | Every row names four distinct faces, and a face is named exactly when it is neither the reference face nor its opposite |
| BandMap.BandAvoidsAxis | src/band_map.js:6-41 | No row names its reference face or the opposite face |
| BandMap.EdgeKindFollowsAxis | src/band_map.js:6-41 | U and D rows slice rows, L and R rows slice columns, F and B rows slice the rows of U/D and the columns of L/R |
| BandMap.OppositeBandMirrors | src/band_map.js:6-41 | Opposite reference faces list the same four faces in reverse cyclic order. Each matching pair slices the same way from opposite sides, and only the L/R pair flips the reading direction |
| BandMap.UpAndDownBands | src/band_map.js:6-41 | The U row reads B, R, F, L from the near side unreversed. The D row reads F, R, B, L from the far side unreversed |
| Faces.Chunk | src/cube.js:12-39 | The loops return exactly `Chunked`: n chunks of length n, rows for `Rows` and columns otherwise |
| Faces.Chunked | src/cube.js:12-39 | The chunks of a face: n chunks of length n. ChunkedCell gives their contents |
| Faces.ChunkedCell | src/cube.js:12-39 | Sticker j of row chunk i is cell (i, j), the slice [i*n, i*n+n). Sticker j of column chunk i is cell (j, i), at flat index j*n + i |
| Faces.Unchunk | src/cube.js:48-63 | The loops return `Unchunked`. For n chunks of length n, the result is an n-by-n face whose rows (or columns) are the chunks |
| Faces.Unchunked | src/cube.js:48-63 | The face reassembled from its chunks. For columns it always has n*n stickers, because the loops push n*n. UnchunkedLength gives the size for rows and UnchunkedCells gives the cells |
| Faces.UnchunkedCells | src/cube.js:48-63 | Cell (r, c) of the reassembled face is element c of chunk r for rows, and element r of chunk c for columns |
| Faces.UnchunkChunk | src/cube.js:12-63 | Chunking a face and unchunking the result the same way gives the face back, for rows and columns |
| Faces.ChunkUnchunk | src/cube.js:12-63 | Unchunking n chunks of length n and chunking again gives the chunks back |
| Faces.ReadChunk | src/cube.js:75-86 | Its own contract gives only the edge length n; ReadChunkCells gives the contents |
| Faces.ReadChunkCells | src/cube.js:75-86 | Sticker k of the edge read is sticker k of row/column `depth` (index n-1-depth when not in order), or sticker n-1-k when reversed |
| Faces.ReadSameSlot | src/cube.js:75-86 | Two (depth, inOrder) pairs that pick the same row or column read the same edge, back to front if exactly one is reversed |
| Faces.WriteChunk | src/cube.js:99-114 | The method returns `Written`, an n-by-n face from which `readChunk` with the same arguments returns `newChunk` |
| Faces.Written | src/cube.js:99-114 | The face after a write is n-by-n again. WrittenCells gives its contents |
| Faces.WrittenCells | src/cube.js:99-114 | Writing changes only the n cells of the selected row or column, which then hold `newChunk` (back to front when reversed); every other cell keeps its sticker |
| Faces.ChunksOfWritten | src/cube.js:99-114 | The chunks of the written face are the old chunks with the selected one replaced by the oriented new chunk |
| Faces.ReadAfterWrite | src/cube.js:75-114 | Reading what was just written, with the same arguments, gives it back |
| Faces.WriteAfterWrite | src/cube.js:99-114 | A second write to the same row or column overrides the first |
| Faces.WriteBackRead | src/cube.js:75-114 | Writing back what was read leaves the face unchanged |
| Faces.WriteSameSlot | src/cube.js:99-114 | Two (depth, inOrder) pairs that pick the same row or column write the same cells, given the edge flipped when exactly one is reversed |
| Faces.TurnFace | src/cube.js:174-188 | 180 maps cell (r, c) to (n-1-r, n-1-c). 90 takes cell (r, c) from (n-1-c, r). Any other value, -90 included, takes it from (c, n-1-r) |
| Faces.TurnFaceQuarterInverse | src/cube.js:174-188 | A 90 turn and a -90 turn undo each other, in either order |
| Faces.TurnFaceTwoQuarters | src/cube.js:174-188 | Two 90 turns, or two -90 turns, equal the 180 turn |
| Faces.TurnFaceHalfInvolution | src/cube.js:174-188 | The 180 turn undoes itself |
| Faces.TurnFaceFourQuarters | src/cube.js:174-188 | Four 90 turns, or four -90 turns, restore the face |
| Faces.TurnFaceFallback | src/cube.js:183-185 | Any degree other than 180 and 90 turns the face like -90 |
| Bands.BandTurned | src/cube.js:125-165 | The state after `turnBand`: an n-by-n cube again. Its meaning is given by TurnBand, TurnBandCycles, TurnBandKeeps and TurnBandFrame |
| Bands.Edges | src/cube.js:128-138 | The first loop: edge i is `readChunk` of the face named by entry i with that entry's flags, n stickers each |
| Bands.Turned | src/cube.js:141-148 | The cycled band keeps the four edges: slot i holds edge i+3 (90), i+1 (-90) or i+2 (otherwise), mod 4 |
| Bands.TurnedAt | src/cube.js:141-148 | Slot i of the cycled band holds edge i+3 (90), i+1 (-90) or i+2 (otherwise), mod 4 |
| Bands.TurnBand | src/cube.js:125-165 | The loops return `BandTurned`. Afterwards the band reads as the old band cycled, and the reference face and its opposite are unchanged |
| Bands.WriteEdges | src/cube.js:151-162 | The cube after each edge is written back through its entry, in order: a valid n-by-n cube. WriteEdgesKeeps and WriteEdgesAt give its contents |
| Bands.WriteEdgesKeeps | src/cube.js:151-162 | The write-back loop keeps every face that no entry names |
| Bands.WriteEdgesAt | src/cube.js:151-162 | When the entries name distinct faces, the face of entry i ends up holding edge i written through entry i |
| Bands.EdgesAfterWrite | src/cube.js:128-162 | Reading the band after writing it back gives the written edges |
| Bands.WriteEdgesTwice | src/cube.js:151-162 | Writing a band back twice is the same as writing the second band once |
| Bands.WriteEdgesRead | src/cube.js:128-162 | Writing back the band just read leaves the cube unchanged |
| Bands.TurnBandCycles | src/cube.js:125-165 | After a band turn, the band reads as the old band cycled: [e3, e0, e1, e2] for 90, [e1, e2, e3, e0] for -90 |
| Bands.TurnBandKeeps | src/cube.js:125-165 | A band turn keeps every face that the table row does not name |
| Bands.TurnBandFrame | src/cube.js:125-165 | On the four band faces, every cell outside the selected row or column at `depth` is kept |
| Bands.TurnBandTwice | src/cube.js:125-165 | Two band turns in a row write the band once, cycled by both |
| Bands.TurnBandQuarterInverse | src/cube.js:141-148 | A 90 band turn and a -90 band turn undo each other, in either order |
| Bands.TurnBandTwoQuarters | src/cube.js:141-148 | Two 90 band turns, or two -90 band turns, equal the 180 band turn |
| Bands.TurnBandHalfInvolution | src/cube.js:141-148 | The 180 band turn undoes itself |
| Bands.TurnBandFourQuarters | src/cube.js:141-148 | Four 90 band turns restore the cube |
| Bands.TurnBandFallback | src/cube.js:146-148 | Any degree other than 90 and -90 turns the band like 180 |
| Bands.BandTurnLaws | src/cube.js:125-165 | For the band of each of the six table rows: cells outside the selected slot are kept, 90 and -90 cancel in either order, two quarters make a half, the half turn undoes itself, four quarters restore the cube |
| Bands.MirroredRead | src/cube.js:75-86 | An entry that mirrors another reads, at depth n-1-depth, the same edge, flipped when the pair flips |
| Bands.MirroredWrite | src/cube.js:99-114 | An entry that mirrors another writes the flipped edge at depth n-1-depth to the same cells |
| Bands.MirroredTurnsAgree | src/cube.js:125-165 | For two rows that mirror each other, a 90 turn of the second row at depth n-1-depth equals a -90 turn of the first at depth `depth` |
| Bands.OppositeBandsAgree | src/band_map.js:6-41 | `turnBand(s, opposite(X), 90, n-1-d)` equals `turnBand(s, X, -90, d)` for every face X and depth d: both move the same cells |
| Rotations.RotateX | src/cube.js:197-227 | Its own contract gives only that the result is a valid cube; the inverse and half-turn lemmas and the examples give its meaning |
| Rotations.RotateY | src/cube.js:236-266 | Its own contract gives only that the result is a valid cube; the inverse and half-turn lemmas and the examples give its meaning |
| Rotations.RotateZ | src/cube.js:275-305 | Its own contract gives only that the result is a valid cube; the half-turn and four-quarter lemmas and the examples give its meaning |
| Rotations.RotateXQuarterInverse | src/cube.js:197-227 | `rotateX` by 90 and by -90 undo each other, in either order |
| Rotations.RotateXTwoQuarters | src/cube.js:197-227 | Two 90 (or two -90) rotations about X equal the 180 rotation |
| Rotations.RotateXHalfInvolution | src/cube.js:197-227 | The 180 rotation about X undoes itself |
| Rotations.RotateYQuarterInverse | src/cube.js:236-266 | `rotateY` by 90 and by -90 undo each other, in either order |
| Rotations.RotateYTwoQuarters | src/cube.js:236-266 | Two 90 (or two -90) rotations about Y equal the 180 rotation |
| Rotations.RotateYHalfInvolution | src/cube.js:236-266 | The 180 rotation about Y undoes itself |
| Rotations.RotateZTwoQuarters | src/cube.js:275-305 | Two 90 (or two -90) rotations about Z equal the 180 rotation |
| Rotations.RotateZHalfInvolution | src/cube.js:275-305 | The 180 rotation about Z undoes itself |
| Rotations.RotateZFourQuarters | src/cube.js:275-305 | Four 90 rotations, or four -90 rotations, about Z restore the cube |
| Rotations.RotateZQuarterTurnsDoNotCancel | src/cube.js:275-305 | As written, `rotateZ` by 90 and then by -90 puts the old down face on top, so it is not the identity whenever U and D differ |
| Rotations.RotateZCorrected | src/cube.js:286-294 | The corrected -90 branch: it agrees with `rotateZ` on every other degree value |
| Rotations.RotateZCorrectedQuarterInverse | src/cube.js:275-305 | With the corrected -90 branch, 90 and -90 about Z undo each other, in either order |
| Rotations.RotateZCorrectedTwoQuarters | src/cube.js:275-305 | With the corrected branch, two -90 rotations about Z still equal the 180 rotation |
| Rotations.RotateFallback | src/cube.js:197-305 | On every axis, any degree other than 90 and -90 rotates like 180 |
| Examples.ChunkRowsExample | tests/cube_test.js:20-24 | The rows of the face 1..9 are [1,2,3], [4,5,6], [7,8,9], and they unchunk back to it |
| Examples.ChunkColsExample | tests/cube_test.js:26-30 | The columns of the face 1..9 are [1,4,7], [2,5,8], [3,6,9], and they unchunk back to it |
| Examples.ReadRowsExample | tests/cube_test.js:37-52 | Reading rows of 1..9 from the top, from the bottom, at depths 1 and 2, and reversed |
| Examples.ReadColsExample | tests/cube_test.js:82-97 | Reading columns of 1..9 from the left, from the right, at depths 1 and 2, and reversed |
| Examples.WriteRowsExample | tests/cube_test.js:54-75 | Writing a row of 1..9 at the top, at the bottom, at depths 1 and 2, and reversed |
| Examples.WriteColsExample | tests/cube_test.js:99-107 | Writing the left and the right column of 1..9 |
| Examples.WriteColsDepthExample | tests/cube_test.js:109-115 | Writing the columns of 1..9 at depths 1 and 2 |
| Examples.WriteColsReversedExample | tests/cube_test.js:117-120 | Writing [12, 11, 10] back to front into the left column gives 10, 11, 12 down that column |
| Examples.TurnFaceExample | tests/cube_test.js:135-147 | Turning 1..9 by 90 gives [7,4,1,8,5,2,9,6,3] and by -90 gives [3,6,9,2,5,8,1,4,7] |
| Examples.TurnFaceHalfExample | tests/cube_test.js:149-154 | Turning 1..9 by 180 gives [9,8,...,1] |
| Examples.ReadTwo | src/cube.js:75-86 | On a 2-by-2 face, the two stickers a read returns, and their order |
| Examples.WriteTwo | src/cube.js:99-114 | On a 2-by-2 face, the two cells a write changes and what they receive |
| Examples.SideFaceAfterTurn | src/cube.js:151-162 | After a band turn, the face named by entry i of the row holds cycled edge i written through that entry |
| Examples.UpEdgesExample | tests/cube_test.js:173-182 | The U band of the lettered 2-by-2 cube reads the top rows of B, R, F, L |
| Examples.TurnBandUpExample | tests/cube_test.js:173-182 | The full state after `turnBand(data, 'U', 90)` on the lettered cube |
| Examples.TurnBandUpAnticlockwiseExample | tests/cube_test.js:184-193 | The full state after `turnBand(data, 'U', -90)` on the lettered cube |
| Examples.TurnBandUpHalfExample | tests/cube_test.js:195-204 | The full state after `turnBand(data, 'U', 180)` on the lettered cube |
| Examples.LeftEdgesExample | tests/cube_test.js:206-215 | The L band reads the left columns of U, F, D and the right column of B back to front |
| Examples.TurnBandLeftExample | tests/cube_test.js:206-215 | The full state after `turnBand(data, 'L', 90)` on the lettered cube |
| Examples.FrontEdgesExample | tests/cube_test.js:217-226 | The F band reads U's bottom row and R's left column back to front, D's top row, and L's right column |
| Examples.TurnBandFrontExample | tests/cube_test.js:217-226 | The full state after `turnBand(data, 'F', 90)` on the lettered cube |
| Examples.RightEdgesExample | tests/cube_test.js:228-237 | The R band reads the right columns of U, D and F back to front, and the left column of B |
| Examples.TurnBandRightExample | tests/cube_test.js:228-237 | The full state after `turnBand(data, 'R', 90)` on the lettered cube |
| Examples.BackEdgesExample | tests/cube_test.js:239-248 | The B band reads U's top row back to front, L's left column, D's bottom row, and R's right column back to front |
| Examples.TurnBandBackExample | tests/cube_test.js:239-248 | The full state after `turnBand(data, 'B', 90)` on the lettered cube |
| Examples.DownEdgesExample | tests/cube_test.js:250-259 | The D band reads the bottom rows of F, R, B, L |
| Examples.TurnBandDownExample | tests/cube_test.js:250-259 | The full state after `turnBand(data, 'D', 90)` on the lettered cube |
| Examples.TurnTwo | src/cube.js:174-188 | The two quarter turns of a 2-by-2 face, sticker by sticker |
| Examples.RotateXExample | tests/cube_test.js:280-311 | The full states after `rotateX(data, d)` for d = 90, -90 and 180 on the lettered cube |
| Examples.RotateYExample | tests/cube_test.js:315-346 | The full states after `rotateY(data, d)` for d = 90, -90 and 180 on the lettered cube |
| Examples.RotateZExample | tests/cube_test.js:350-370 | The full states after `rotateZ(data, 90)` and `rotateZ(data, -90)` on the lettered cube, as the suite pins them |
| Examples.RotateZHalfExample | tests/cube_test.js:372-381 | The full state after `rotateZ(data, 180)` on the lettered cube |
| Examples.RotateZRoundTripExample | tests/cube_test.js:350-370 | On the lettered cube, `rotateZ` by 90 then -90 leaves D1..D4 on top, so it is not the identity |

## Left out

- `Math.sqrt` (src/cube.js:14): the size n is an explicit parameter with `|face| == n * n`. Faces whose length is not a square are excluded by precondition.
- n = 0 is excluded wherever rows are reassembled. `reduce` without an initial value throws on an empty array, so `Unchunked` requires at least one chunk for `Rows`, and `TurnFace` requires n > 0 for every degree other than 180. The 180 turn is `data.reverse()`, which handles an empty face, so `TurnFace` accepts n = 0 there. Every operation on a cube state requires n > 0.
- Invalid arguments are preconditions, not modelled results. This covers:
  - a depth outside 0..n-1;
  - a `new_chunk` whose length is not n;
  - chunks shorter than their count in `unchunk`;
  - a face key missing from the cube object.

  On these inputs the source yields `undefined` entries or throws.
- Method names are an enum. Any string other than `'rows'` selects columns in `chunk` and `unchunk`, so `ChunkKind` has the two values `Rows` and `Cols`. `turnFace` calls `chunk` without a method and gets columns.
- `turnBand`'s default `depth = 0` is an explicit argument.
- In-place mutation and aliasing are not modelled; every operation returns a value. This covers:
  - `.reverse()` on the caller's arrays: `turnFace` by 180 reverses its argument, `writeChunk` reverses `new_chunk`, and the rotations reverse faces of the input object;
  - `turnBand` overwriting the faces of the caller's `data` object and returning that same object.

  The model gives the resulting values, but not that the caller's arrays and object were changed, nor that the returned object is the argument.
- Faces.ReadChunk: its own contract states only the edge length. ReadChunkCells states its contents.
- Faces.Unchunked: its own contract states only the face size for columns. UnchunkedLength states it for rows, and UnchunkedCells and Unchunk state its contents.
- Faces.Written: its own contract states only the face size. WrittenCells states its contents.
- Bands.WriteEdges: its own contract states only that the result is a valid cube. WriteEdgesKeeps and WriteEdgesAt state its contents.
- Faces.Chunked: its own contract states only the number and length of the chunks. ChunkedCell states their contents.
- Rotations.RotateX: its own contract states only that the result is a valid cube. The inverse and half-turn lemmas and the examples give its meaning.
- Rotations.RotateY: the same as RotateX.
- Rotations.RotateZ: the same as RotateX.
- The build script and the test harness are not part of this model. Each case of the suite appears as a lemma of `Examples`, with the numbers 10, 11 and 12 standing for the suite's strings 'A', 'B' and 'C'.

## Findings

| source | as written | input that shows it | evidently intended | confidence | as-written member | corrected member |
|---|---|---|---|---|---|---|
| src/cube.js:286-294 | The -90 branch of `rotateZ` fills U from L, L from D, R from U and D from R: the same face cycle as the 90 branch. Only the turn of each face is reversed | The 2-by-2 cube with stickers U1..D4, `rotateZ` by 90 then by -90: U ends up holding D1, D2, D3, D4 instead of U1..U4 | The -90 branch moves faces along the reverse cycle (U from R, L from U, R from D, D from L), so 90 and -90 undo each other like every other axis | high; not executed; tests/cube_test.js:361-370 pins the as-written output | Rotations.RotateZQuarterTurnsDoNotCancel | Rotations.RotateZCorrectedQuarterInverse |
