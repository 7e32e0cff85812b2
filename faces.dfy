/**
 * Face-level transforms of src/cube.js.
 *
 * A face is a flat row-major sequence of n*n stickers: the sticker in row r
 * and column c sits at index r*n + c. The source derives n from the length
 * with a square root; here n is passed explicitly and every face satisfies
 * |face| == n*n.
 */
module Faces {
  import opened BandMap

  // ---------------------------------------------------------------------
  // Cells of a square face

  predicate IsFace<T>(face: seq<T>, n: nat)
  {
    |face| == n * n
  }

  lemma MulMono(a: nat, b: nat, m: nat)
    requires a <= b
    ensures a * m <= b * m
  {
  }

  /** Cell (r, c) of an n-by-n face lies inside the face, and so does its row. */
  lemma CellInRange(n: nat, r: nat, c: nat)
    requires r < n && c < n
    ensures r * n + c < n * n && r * n + n <= n * n
  {
    MulMono(r + 1, n, n);
  }

  /** Every index of an n-by-n face is the cell (k / n, k % n). */
  lemma CellOfIndex(n: nat, k: nat)
    requires k < n * n
    ensures n > 0 && k / n < n && k % n < n && (k / n) * n + k % n == k
  {
    if k / n >= n {
      MulMono(n, k / n, n);
    }
  }

  /** The sticker in row r and column c. */
  function At<T>(face: seq<T>, n: nat, r: nat, c: nat): T
    requires IsFace(face, n) && r < n && c < n
  {
    CellInRange(n, r, c);
    face[r * n + c]
  }

  /** Two faces of the same size are equal when they agree cell by cell. */
  lemma FaceExt<T>(a: seq<T>, b: seq<T>, n: nat)
    requires IsFace(a, n) && IsFace(b, n)
    requires forall r: nat, c: nat | r < n && c < n :: At(a, n, r, c) == At(b, n, r, c)
    ensures a == b
  {
    forall k | 0 <= k < n * n
      ensures a[k] == b[k]
    {
      CellOfIndex(n, k);
      assert At(a, n, k / n, k % n) == At(b, n, k / n, k % n);
    }
  }

  // ---------------------------------------------------------------------
  // Sequence helpers: Array.prototype.reverse and reduce((a, b) => a.concat(b))

  function Reverse<X>(s: seq<X>): (r: seq<X>)
    ensures |r| == |s| && forall i | 0 <= i < |s| :: r[i] == s[|s| - 1 - i]
  {
    seq(|s|, i requires 0 <= i < |s| => s[|s| - 1 - i])
  }

  lemma ReverseInvolution<X>(s: seq<X>)
    ensures Reverse(Reverse(s)) == s
  {
  }

  /** `s`, or `s` back to front when `reversed` holds. */
  function Oriented<X>(reversed: bool, s: seq<X>): (r: seq<X>)
    ensures |r| == |s|
  {
    if reversed then Reverse(s) else s
  }

  /** Left-to-right concatenation of the chunks, as `reduce` with `concat` builds it. */
  function Concat<X>(cs: seq<seq<X>>): seq<X>
  {
    if |cs| == 0 then [] else Concat(cs[..|cs| - 1]) + cs[|cs| - 1]
  }

  /** Concatenating chunks of length m gives m elements per chunk. */
  lemma {:induction false} ConcatLength<X>(cs: seq<seq<X>>, m: nat)
    requires forall i | 0 <= i < |cs| :: |cs[i]| == m
    ensures |Concat(cs)| == |cs| * m
  {
    if |cs| > 0 {
      var k := |cs| - 1;
      ConcatLength(cs[..k], m);
      assert |Concat(cs)| == k * m + m;
    }
  }

  /** Element j of chunk i lands at i*m + j. */
  lemma {:induction false} ConcatCell<X>(cs: seq<seq<X>>, m: nat, i: nat, j: nat)
    requires forall i | 0 <= i < |cs| :: |cs[i]| == m
    requires i < |cs| && j < m
    ensures i * m + j < |Concat(cs)| && Concat(cs)[i * m + j] == cs[i][j]
  {
    var k := |cs| - 1;
    var init := cs[..k];
    ConcatLength(init, m);
    assert Concat(cs) == Concat(init) + cs[k];
    if i == k {
      assert |Concat(cs)| == k * m + m;
    } else {
      ConcatCell(init, m, i, j);
    }
  }

  /** Every chunk is as long as there are chunks. */
  predicate Square<X>(cs: seq<seq<X>>)
  {
    forall j | 0 <= j < |cs| :: |cs[j]| == |cs|
  }

  /** Element i of each of the first j chunks, in order. */
  function Gather<X>(cs: seq<seq<X>>, i: nat, j: nat): (g: seq<X>)
    requires j <= |cs| && forall m | 0 <= m < |cs| :: |cs[m]| > i
    ensures |g| == j
  {
    if j == 0 then [] else Gather(cs, i, j - 1) + [cs[j - 1][i]]
  }

  /** The first k chunks of the transposition: chunk i gathers element i of every chunk. */
  function TransposeUpTo<X>(cs: seq<seq<X>>, k: nat): (t: seq<seq<X>>)
    requires k <= |cs| && forall m | 0 <= m < |cs| :: |cs[m]| >= |cs|
    ensures |t| == k && forall m | 0 <= m < k :: |t[m]| == |cs|
  {
    if k == 0 then [] else TransposeUpTo(cs, k - 1) + [Gather(cs, k - 1, |cs|)]
  }

  /** Chunk i of the result gathers element i of every chunk, in order. */
  function Transpose<X>(cs: seq<seq<X>>): (t: seq<seq<X>>)
    requires forall m | 0 <= m < |cs| :: |cs[m]| >= |cs|
    ensures Square(t)
  {
    TransposeUpTo(cs, |cs|)
  }

  lemma {:induction false} GatherAt<X>(cs: seq<seq<X>>, i: nat, j: nat, m: nat)
    requires j <= |cs| && (forall m | 0 <= m < |cs| :: |cs[m]| > i) && m < j
    ensures Gather(cs, i, j)[m] == cs[m][i]
  {
    if m < j - 1 {
      GatherAt(cs, i, j - 1, m);
    }
  }

  lemma {:induction false} TransposeUpToAt<X>(cs: seq<seq<X>>, k: nat, i: nat)
    requires k <= |cs| && (forall m | 0 <= m < |cs| :: |cs[m]| >= |cs|) && i < k
    ensures TransposeUpTo(cs, k)[i] == Gather(cs, i, |cs|)
  {
    if i < k - 1 {
      TransposeUpToAt(cs, k - 1, i);
    }
  }

  /** Element j of chunk i of the transposition is element i of chunk j. */
  lemma TransposeCell<X>(cs: seq<seq<X>>, i: nat, j: nat)
    requires (forall m | 0 <= m < |cs| :: |cs[m]| >= |cs|) && i < |cs| && j < |cs|
    ensures Transpose(cs)[i][j] == cs[j][i]
  {
    TransposeUpToAt(cs, |cs|, i);
    GatherAt(cs, i, |cs|, j);
  }

  // ---------------------------------------------------------------------
  // chunk / unchunk

  /** The first j stickers of column i, top to bottom. */
  function Column<T>(face: seq<T>, n: nat, i: nat, j: nat): (col: seq<T>)
    requires IsFace(face, n) && i < n && j <= n
    ensures |col| == j
  {
    if j == 0 then []
    else
      CellInRange(n, j - 1, i);
      Column(face, n, i, j - 1) + [face[(j - 1) * n + i]]
  }

  /** Row i is the slice [i*n, i*n + n) of the face; column i is read top to bottom. */
  function ChunkAt<T>(face: seq<T>, n: nat, kind: ChunkKind, i: nat): (chunk: seq<T>)
    requires IsFace(face, n) && i < n
    ensures |chunk| == n
  {
    match kind
    case Rows =>
      CellInRange(n, i, 0);
      face[i * n .. i * n + n]
    case Cols => Column(face, n, i, n)
  }

  /** The first k rows (or columns) of a face, in order. */
  function ChunksUpTo<T>(face: seq<T>, n: nat, kind: ChunkKind, k: nat): (chunks: seq<seq<T>>)
    requires IsFace(face, n) && k <= n
    ensures |chunks| == k && forall i | 0 <= i < k :: |chunks[i]| == n
  {
    if k == 0 then [] else ChunksUpTo(face, n, kind, k - 1) + [ChunkAt(face, n, kind, k - 1)]
  }

  /** The rows (or columns) of a face. */
  function Chunked<T>(face: seq<T>, n: nat, kind: ChunkKind): (chunks: seq<seq<T>>)
    requires IsFace(face, n)
    ensures |chunks| == n && Square(chunks)
  {
    ChunksUpTo(face, n, kind, n)
  }

  lemma {:induction false} ColumnCells<T>(face: seq<T>, n: nat, i: nat, j: nat)
    requires IsFace(face, n) && i < n && j <= n
    ensures forall m | 0 <= m < j :: Column(face, n, i, j)[m] == At(face, n, m, i)
  {
    if j > 0 {
      ColumnCells(face, n, i, j - 1);
    }
  }

  lemma {:induction false} ChunksUpToAt<T>(face: seq<T>, n: nat, kind: ChunkKind, k: nat, i: nat)
    requires IsFace(face, n) && i < k <= n
    ensures ChunksUpTo(face, n, kind, k)[i] == ChunkAt(face, n, kind, i)
  {
    if i < k - 1 {
      ChunksUpToAt(face, n, kind, k - 1, i);
    }
  }

  /** Sticker j of row i is cell (i, j); sticker j of column i is cell (j, i). */
  lemma ChunkedCell<T>(face: seq<T>, n: nat, kind: ChunkKind, i: nat, j: nat)
    requires IsFace(face, n) && i < n && j < n
    ensures Chunked(face, n, kind)[i][j] == if kind == Rows then At(face, n, i, j) else At(face, n, j, i)
  {
    ChunksUpToAt(face, n, kind, n, i);
    if kind == Cols {
      ColumnCells(face, n, i, n);
    } else {
      CellInRange(n, i, j);
    }
  }

  /**
   * `chunk`: row i is the slice [i*n, (i+1)*n) of the face; element j of
   * column i is the sticker at j*n + i.
   */
  method Chunk<T>(data: seq<T>, n: nat, kind: ChunkKind) returns (chunks: seq<seq<T>>)
    requires IsFace(data, n)
    ensures chunks == Chunked(data, n, kind)
  {
    if kind == Rows {
      var rows: seq<seq<T>> := [];
      for i := 0 to n
        invariant rows == ChunksUpTo(data, n, Rows, i)
      {
        var start := n * i;
        CellInRange(n, i, 0);
        assert data[start .. start + n] == ChunkAt(data, n, Rows, i);
        rows := rows + [data[start .. start + n]];
      }
      chunks := rows;
    } else {
      var cols: seq<seq<T>> := [];
      for i := 0 to n
        invariant cols == ChunksUpTo(data, n, Cols, i)
      {
        var col: seq<T> := [];
        for j := 0 to n
          invariant col == Column(data, n, i, j)
        {
          CellInRange(n, j, i);
          col := col + [data[j * n + i]];
        }
        assert col == ChunkAt(data, n, Cols, i);
        cols := cols + [col];
      }
      chunks := cols;
    }
  }

  /**
   * `unchunk`: rows are concatenated in order; columns are scattered so that
   * element j of chunk i lands at flat index j*n + i. The column loops push
   * exactly n*n stickers, whatever the chunks' lengths.
   */
  function Unchunked<T>(chunks: seq<seq<T>>, kind: ChunkKind): (face: seq<T>)
    requires kind == Rows ==> |chunks| > 0
    requires kind == Cols ==> forall j | 0 <= j < |chunks| :: |chunks[j]| >= |chunks|
    ensures kind == Cols ==> IsFace(face, |chunks|)
  {
    if kind == Rows then Concat(chunks)
    else
      ConcatLength(Transpose(chunks), |chunks|);
      Concat(Transpose(chunks))
  }

  /** Reassembling n chunks of length n gives an n-by-n face. */
  lemma UnchunkedLength<T>(chunks: seq<seq<T>>, kind: ChunkKind)
    requires Square(chunks) && (kind == Rows ==> |chunks| > 0)
    ensures IsFace(Unchunked(chunks, kind), |chunks|)
  {
    ConcatLength(if kind == Rows then chunks else Transpose(chunks), |chunks|);
  }

  /** Reassembling n chunks of length n gives a face whose rows (or columns) are the chunks. */
  lemma UnchunkedCells<T>(chunks: seq<seq<T>>, kind: ChunkKind)
    requires Square(chunks) && (kind == Rows ==> |chunks| > 0)
    ensures IsFace(Unchunked(chunks, kind), |chunks|)
    ensures forall r: nat, c: nat | r < |chunks| && c < |chunks| ::
      At(Unchunked(chunks, kind), |chunks|, r, c) == if kind == Rows then chunks[r][c] else chunks[c][r]
  {
    UnchunkedLength(chunks, kind);
    forall r: nat, c: nat | r < |chunks| && c < |chunks|
      ensures At(Unchunked(chunks, kind), |chunks|, r, c) == if kind == Rows then chunks[r][c] else chunks[c][r]
    {
      UnchunkedCell(chunks, kind, r, c);
    }
  }

  /** One cell of a reassembled face. */
  lemma UnchunkedCell<T>(chunks: seq<seq<T>>, kind: ChunkKind, r: nat, c: nat)
    requires Square(chunks) && r < |chunks| && c < |chunks|
    ensures IsFace(Unchunked(chunks, kind), |chunks|)
    ensures At(Unchunked(chunks, kind), |chunks|, r, c) == if kind == Rows then chunks[r][c] else chunks[c][r]
  {
    var n := |chunks|;
    var flat := if kind == Rows then chunks else Transpose(chunks);
    ConcatLength(flat, n);
    ConcatCell(flat, n, r, c);
    if kind == Cols {
      TransposeCell(chunks, r, c);
    }
  }

  method Unchunk<T>(chunks: seq<seq<T>>, kind: ChunkKind) returns (face: seq<T>)
    requires kind == Rows ==> |chunks| > 0
    requires kind == Cols ==> forall j | 0 <= j < |chunks| :: |chunks[j]| >= |chunks|
    ensures face == Unchunked(chunks, kind)
    ensures Square(chunks) ==> IsFace(face, |chunks|)
    ensures Square(chunks) ==> forall r: nat, c: nat | r < |chunks| && c < |chunks| ::
      At(face, |chunks|, r, c) == if kind == Rows then chunks[r][c] else chunks[c][r]
  {
    if kind == Rows {
      face := Concat(chunks);
    } else {
      var result: seq<T> := [];
      var size := |chunks|;
      for i := 0 to size
        invariant result == Concat(TransposeUpTo(chunks, i))
      {
        for j := 0 to size
          invariant result == Concat(TransposeUpTo(chunks, i)) + Gather(chunks, i, j)
        {
          result := result + [chunks[j][i]];
        }
        assert TransposeUpTo(chunks, i + 1)[..i] == TransposeUpTo(chunks, i);
      }
      face := result;
    }
    if Square(chunks) {
      UnchunkedCells(chunks, kind);
    }
  }

  /** unchunk(chunk(f, m), m) == f for rows and for columns. */
  lemma UnchunkChunk<T>(face: seq<T>, n: nat, kind: ChunkKind)
    requires IsFace(face, n) && (kind == Rows ==> n > 0)
    ensures Unchunked(Chunked(face, n, kind), kind) == face
  {
    var chunks := Chunked(face, n, kind);
    var again := Unchunked(chunks, kind);
    UnchunkedLength(chunks, kind);
    forall r: nat, c: nat | r < n && c < n
      ensures At(again, n, r, c) == At(face, n, r, c)
    {
      if kind == Rows {
        UnchunkedCell(chunks, kind, r, c);
        ChunkedCell(face, n, kind, r, c);
      } else {
        UnchunkedCell(chunks, kind, r, c);
        ChunkedCell(face, n, kind, c, r);
      }
    }
    FaceExt(again, face, n);
  }

  /** chunk(unchunk(cs, m), m) == cs for n chunks of length n. */
  lemma ChunkUnchunk<T>(chunks: seq<seq<T>>, kind: ChunkKind)
    requires Square(chunks) && |chunks| > 0
    ensures IsFace(Unchunked(chunks, kind), |chunks|)
    ensures Chunked(Unchunked(chunks, kind), |chunks|, kind) == chunks
  {
    var n := |chunks|;
    var face := Unchunked(chunks, kind);
    UnchunkedLength(chunks, kind);
    var again := Chunked(face, n, kind);
    forall i | 0 <= i < n
      ensures again[i] == chunks[i]
    {
      forall j | 0 <= j < n
        ensures again[i][j] == chunks[i][j]
      {
        ChunkedCell(face, n, kind, i, j);
        if kind == Rows {
          UnchunkedCell(chunks, kind, i, j);
        } else {
          UnchunkedCell(chunks, kind, j, i);
        }
      }
    }
  }

  // ---------------------------------------------------------------------
  // readChunk / writeChunk

  /** Which row or column a depth selects: counted from the near side when in order, else from the far side. */
  function SlotIndex(n: nat, depth: nat, inOrder: bool): (index: nat)
    requires depth < n
    ensures index < n
  {
    if inOrder then depth else n - depth - 1
  }

  /** Sticker k of row `index` (for Rows) or of column `index` (for Cols). */
  function SlotCell<T>(face: seq<T>, n: nat, kind: ChunkKind, index: nat, k: nat): T
    requires IsFace(face, n) && index < n && k < n
  {
    if kind == Rows then At(face, n, index, k) else At(face, n, k, index)
  }

  /**
   * `readChunk`: the row or column at `depth` (from the far side unless
   * `inOrder`), back to front when `isReversed`.
   */
  function ReadChunk<T>(face: seq<T>, n: nat, kind: ChunkKind, depth: nat, inOrder: bool, isReversed: bool): (edge: seq<T>)
    requires IsFace(face, n) && depth < n
    ensures |edge| == n
  {
    var chunks := Chunked(face, n, kind);
    Oriented(isReversed, chunks[SlotIndex(n, depth, inOrder)])
  }

  /**
   * Sticker k of the edge read is sticker k (or n-1-k when reversed) of row
   * `depth` (or column `depth`), where the depth counts from the far side
   * unless `inOrder`.
   */
  lemma ReadChunkCells<T>(face: seq<T>, n: nat, kind: ChunkKind, depth: nat, inOrder: bool, isReversed: bool)
    requires IsFace(face, n) && depth < n
    ensures forall k | 0 <= k < n ::
      ReadChunk(face, n, kind, depth, inOrder, isReversed)[k]
        == SlotCell(face, n, kind, SlotIndex(n, depth, inOrder), if isReversed then n - 1 - k else k)
  {
    forall k | 0 <= k < n
      ensures ReadChunk(face, n, kind, depth, inOrder, isReversed)[k]
           == SlotCell(face, n, kind, SlotIndex(n, depth, inOrder), if isReversed then n - 1 - k else k)
    {
      ChunkedCell(face, n, kind, SlotIndex(n, depth, inOrder), if isReversed then n - 1 - k else k);
    }
  }

  /**
   * `writeChunk`: the face with the selected row or column replaced by
   * `newChunk`, back to front when `isReversed`.
   */
  function Written<T>(face: seq<T>, n: nat, kind: ChunkKind, depth: nat, inOrder: bool, isReversed: bool, newChunk: seq<T>)
    : (result: seq<T>)
    requires IsFace(face, n) && depth < n && |newChunk| == n
    ensures IsFace(result, n)
  {
    var updated := Chunked(face, n, kind)[SlotIndex(n, depth, inOrder) := Oriented(isReversed, newChunk)];
    UnchunkedLength(updated, kind);
    Unchunked(updated, kind)
  }

  /**
   * Writing changes exactly the n cells of the selected row or column, which
   * then hold `newChunk` (back to front when `isReversed`); every other cell
   * is kept.
   */
  lemma WrittenCells<T>(face: seq<T>, n: nat, kind: ChunkKind, depth: nat, inOrder: bool, isReversed: bool, newChunk: seq<T>)
    requires IsFace(face, n) && depth < n && |newChunk| == n
    ensures forall r: nat, c: nat | r < n && c < n ::
      At(Written(face, n, kind, depth, inOrder, isReversed, newChunk), n, r, c) ==
        if kind == Rows && r == SlotIndex(n, depth, inOrder) then newChunk[if isReversed then n - 1 - c else c]
        else if kind == Cols && c == SlotIndex(n, depth, inOrder) then newChunk[if isReversed then n - 1 - r else r]
        else At(face, n, r, c)
  {
    forall r: nat, c: nat | r < n && c < n
      ensures At(Written(face, n, kind, depth, inOrder, isReversed, newChunk), n, r, c) ==
        if kind == Rows && r == SlotIndex(n, depth, inOrder) then newChunk[if isReversed then n - 1 - c else c]
        else if kind == Cols && c == SlotIndex(n, depth, inOrder) then newChunk[if isReversed then n - 1 - r else r]
        else At(face, n, r, c)
    {
      WrittenCell(face, n, kind, depth, inOrder, isReversed, newChunk, r, c);
    }
  }

  /** One cell of WrittenCells. */
  lemma WrittenCell<T>(face: seq<T>, n: nat, kind: ChunkKind, depth: nat, inOrder: bool, isReversed: bool, newChunk: seq<T>,
                       r: nat, c: nat)
    requires IsFace(face, n) && depth < n && |newChunk| == n && r < n && c < n
    ensures IsFace(Written(face, n, kind, depth, inOrder, isReversed, newChunk), n)
    ensures At(Written(face, n, kind, depth, inOrder, isReversed, newChunk), n, r, c) ==
        if kind == Rows && r == SlotIndex(n, depth, inOrder) then newChunk[if isReversed then n - 1 - c else c]
        else if kind == Cols && c == SlotIndex(n, depth, inOrder) then newChunk[if isReversed then n - 1 - r else r]
        else At(face, n, r, c)
  {
    var index := SlotIndex(n, depth, inOrder);
    var placed := Oriented(isReversed, newChunk);
    var updated := Chunked(face, n, kind)[index := placed];
    assert Square(updated) && Written(face, n, kind, depth, inOrder, isReversed, newChunk) == Unchunked(updated, kind);
    UnchunkedCell(updated, kind, r, c);
    if kind == Rows && r != index {
      ChunkedCell(face, n, kind, r, c);
    } else if kind == Cols && c != index {
      ChunkedCell(face, n, kind, c, r);
    }
  }

  method WriteChunk<T>(face: seq<T>, n: nat, kind: ChunkKind, depth: nat, inOrder: bool, isReversed: bool, newChunk: seq<T>)
    returns (result: seq<T>)
    requires IsFace(face, n) && depth < n && |newChunk| == n
    ensures result == Written(face, n, kind, depth, inOrder, isReversed, newChunk)
    ensures IsFace(result, n) && ReadChunk(result, n, kind, depth, inOrder, isReversed) == newChunk
  {
    var chunks := Chunk(face, n, kind);
    var index := depth;
    if !inOrder {
      index := |chunks| - depth - 1;
    }
    var placed := newChunk;
    if isReversed {
      placed := Reverse(placed);
    }
    chunks := chunks[index := placed];
    result := Unchunk(chunks, kind);
    ReadAfterWrite(face, n, kind, depth, inOrder, isReversed, newChunk);
  }

  /** Orienting twice the same way is the identity. */
  lemma OrientedTwice<X>(reversed: bool, s: seq<X>)
    ensures Oriented(reversed, Oriented(reversed, s)) == s
  {
    ReverseInvolution(s);
  }

  /** The chunks of a written face are the old chunks with the selected one replaced. */
  lemma ChunksOfWritten<T>(face: seq<T>, n: nat, kind: ChunkKind, depth: nat, inOrder: bool, isReversed: bool, newChunk: seq<T>)
    requires IsFace(face, n) && depth < n && |newChunk| == n
    ensures Chunked(Written(face, n, kind, depth, inOrder, isReversed, newChunk), n, kind)
         == Chunked(face, n, kind)[SlotIndex(n, depth, inOrder) := Oriented(isReversed, newChunk)]
  {
    var updated := Chunked(face, n, kind)[SlotIndex(n, depth, inOrder) := Oriented(isReversed, newChunk)];
    assert Square(updated);
    assert Written(face, n, kind, depth, inOrder, isReversed, newChunk) == Unchunked(updated, kind);
    ChunkUnchunk(updated, kind);
  }

  /** Reading back what was just written gives it back. */
  lemma ReadAfterWrite<T>(face: seq<T>, n: nat, kind: ChunkKind, depth: nat, inOrder: bool, isReversed: bool, newChunk: seq<T>)
    requires IsFace(face, n) && depth < n && |newChunk| == n
    ensures ReadChunk(Written(face, n, kind, depth, inOrder, isReversed, newChunk), n, kind, depth, inOrder, isReversed) == newChunk
  {
    ChunksOfWritten(face, n, kind, depth, inOrder, isReversed, newChunk);
    OrientedTwice(isReversed, newChunk);
  }

  /** A second write to the same row or column overrides the first. */
  lemma WriteAfterWrite<T>(face: seq<T>, n: nat, kind: ChunkKind, depth: nat, inOrder: bool, isReversed: bool,
                           first: seq<T>, second: seq<T>)
    requires IsFace(face, n) && depth < n && |first| == n && |second| == n
    ensures Written(Written(face, n, kind, depth, inOrder, isReversed, first), n, kind, depth, inOrder, isReversed, second)
         == Written(face, n, kind, depth, inOrder, isReversed, second)
  {
    ChunksOfWritten(face, n, kind, depth, inOrder, isReversed, first);
    var index := SlotIndex(n, depth, inOrder);
    var chunks := Chunked(face, n, kind);
    assert chunks[index := Oriented(isReversed, first)][index := Oriented(isReversed, second)]
        == chunks[index := Oriented(isReversed, second)];
  }

  /** Writing back what was read leaves the face unchanged. */
  lemma WriteBackRead<T>(face: seq<T>, n: nat, kind: ChunkKind, depth: nat, inOrder: bool, isReversed: bool)
    requires IsFace(face, n) && depth < n
    ensures Written(face, n, kind, depth, inOrder, isReversed, ReadChunk(face, n, kind, depth, inOrder, isReversed)) == face
  {
    var chunks := Chunked(face, n, kind);
    var index := SlotIndex(n, depth, inOrder);
    var edge := ReadChunk(face, n, kind, depth, inOrder, isReversed);
    assert edge == Oriented(isReversed, chunks[index]);
    OrientedTwice(isReversed, chunks[index]);
    assert chunks[index := chunks[index]] == chunks;
    UnchunkChunk(face, n, kind);
  }

  /**
   * Two (depth, inOrder) pairs that select the same row or column read the
   * same stickers, back to front if exactly one of them is reversed.
   */
  lemma ReadSameSlot<T>(face: seq<T>, n: nat, kind: ChunkKind,
                        depth: nat, inOrder: bool, isReversed: bool,
                        depth': nat, inOrder': bool, isReversed': bool)
    requires IsFace(face, n) && depth < n && depth' < n
    requires SlotIndex(n, depth, inOrder) == SlotIndex(n, depth', inOrder')
    ensures ReadChunk(face, n, kind, depth', inOrder', isReversed')
         == Oriented(isReversed != isReversed', ReadChunk(face, n, kind, depth, inOrder, isReversed))
  {
    var chunk := Chunked(face, n, kind)[SlotIndex(n, depth, inOrder)];
    OrientedTwice(true, chunk);
  }

  /** The writing counterpart of ReadSameSlot. */
  lemma WriteSameSlot<T>(face: seq<T>, n: nat, kind: ChunkKind,
                         depth: nat, inOrder: bool, isReversed: bool,
                         depth': nat, inOrder': bool, isReversed': bool, flip: bool, edge: seq<T>)
    requires IsFace(face, n) && depth < n && depth' < n && |edge| == n
    requires SlotIndex(n, depth, inOrder) == SlotIndex(n, depth', inOrder')
    requires flip == (isReversed != isReversed')
    ensures Written(face, n, kind, depth', inOrder', isReversed', Oriented(flip, edge))
         == Written(face, n, kind, depth, inOrder, isReversed, edge)
  {
    OrientedTwice(true, edge);
    assert Oriented(isReversed', Oriented(flip, edge)) == Oriented(isReversed, edge);
  }

  // ---------------------------------------------------------------------
  // turnFace

  /**
   * `turnFace`: 180 reverses the flat face; otherwise the face is cut into
   * columns (the source calls `chunk` without a kind, which slices columns)
   * and 90 reverses each column while any other value reverses the order of
   * the columns, before the columns are concatenated again.
   */
  function TurnFace<T>(face: seq<T>, n: nat, degrees: int): (turned: seq<T>)
    requires IsFace(face, n) && (degrees == 180 || n > 0)
    ensures IsFace(turned, n)
    ensures degrees == 180 ==>
      forall r: nat, c: nat | r < n && c < n :: At(turned, n, r, c) == At(face, n, n - 1 - r, n - 1 - c)
    ensures degrees == 90 ==>
      forall r: nat, c: nat | r < n && c < n :: At(turned, n, r, c) == At(face, n, n - 1 - c, r)
    ensures degrees != 180 && degrees != 90 ==>
      forall r: nat, c: nat | r < n && c < n :: At(turned, n, r, c) == At(face, n, c, n - 1 - r)
  {
    if degrees == 180 then
      HalfTurnCells(face, n);
      Reverse(face)
    else
      var cols := Chunked(face, n, Cols);
      var result := if degrees == 90 then ReverseEach(cols) else Reverse(cols);
      QuarterTurnCells(face, n, degrees == 90);
      Concat(result)
  }

  /** Every chunk back to front, as `cols.map(col => col.reverse())`. */
  function ReverseEach<X>(cs: seq<seq<X>>): (r: seq<seq<X>>)
    ensures |r| == |cs| && forall i | 0 <= i < |cs| :: r[i] == Reverse(cs[i])
  {
    seq(|cs|, i requires 0 <= i < |cs| => Reverse(cs[i]))
  }

  /** The cells of the two quarter turns, built from the columns of the face. */
  lemma QuarterTurnCells<T>(face: seq<T>, n: nat, clockwise: bool)
    requires IsFace(face, n)
    ensures var cols := Chunked(face, n, Cols);
            var turned := Concat(if clockwise then ReverseEach(cols) else Reverse(cols));
            IsFace(turned, n) &&
            forall r: nat, c: nat | r < n && c < n ::
              At(turned, n, r, c) == if clockwise then At(face, n, n - 1 - c, r) else At(face, n, c, n - 1 - r)
  {
    var cols := Chunked(face, n, Cols);
    var result := if clockwise then ReverseEach(cols) else Reverse(cols);
    ConcatLength(result, n);
    var turned := Concat(result);
    forall r: nat, c: nat | r < n && c < n
      ensures At(turned, n, r, c) == if clockwise then At(face, n, n - 1 - c, r) else At(face, n, c, n - 1 - r)
    {
      ConcatCell(result, n, r, c);
      if clockwise {
        ChunkedCell(face, n, Cols, r, n - 1 - c);
      } else {
        ChunkedCell(face, n, Cols, n - 1 - r, c);
      }
    }
  }

  /** Reversing a flat face maps cell (r, c) to cell (n-1-r, n-1-c). */
  lemma HalfTurnCells<T>(face: seq<T>, n: nat)
    requires IsFace(face, n)
    ensures IsFace(Reverse(face), n)
    ensures forall r: nat, c: nat | r < n && c < n :: At(Reverse(face), n, r, c) == At(face, n, n - 1 - r, n - 1 - c)
  {
    forall r: nat, c: nat | r < n && c < n
      ensures At(Reverse(face), n, r, c) == At(face, n, n - 1 - r, n - 1 - c)
    {
      CellInRange(n, r, c);
      assert n * n - 1 - (r * n + c) == (n - 1 - r) * n + (n - 1 - c);
    }
  }

  /** A quarter turn and a quarter turn back cancel, in either order. */
  lemma TurnFaceQuarterInverse<T>(face: seq<T>, n: nat)
    requires IsFace(face, n) && n > 0
    ensures TurnFace(TurnFace(face, n, 90), n, -90) == face
    ensures TurnFace(TurnFace(face, n, -90), n, 90) == face
  {
    QuarterThenBack(face, n);
    BackThenQuarter(face, n);
  }

  /** A 90 turn followed by a -90 turn. */
  lemma QuarterThenBack<T>(face: seq<T>, n: nat)
    requires IsFace(face, n) && n > 0
    ensures TurnFace(TurnFace(face, n, 90), n, -90) == face
  {
    var cw := TurnFace(face, n, 90);
    var back := TurnFace(cw, n, -90);
    forall r: nat, c: nat | r < n && c < n
      ensures At(back, n, r, c) == At(face, n, r, c)
    {
      assert At(back, n, r, c) == At(cw, n, c, n - 1 - r);
    }
    FaceExt(back, face, n);
  }

  /** A -90 turn followed by a 90 turn. */
  lemma BackThenQuarter<T>(face: seq<T>, n: nat)
    requires IsFace(face, n) && n > 0
    ensures TurnFace(TurnFace(face, n, -90), n, 90) == face
  {
    var ccw := TurnFace(face, n, -90);
    var back := TurnFace(ccw, n, 90);
    forall r: nat, c: nat | r < n && c < n
      ensures At(back, n, r, c) == At(face, n, r, c)
    {
      assert At(back, n, r, c) == At(ccw, n, n - 1 - c, r);
    }
    FaceExt(back, face, n);
  }

  /** Two quarter turns the same way make a half turn. */
  lemma TurnFaceTwoQuarters<T>(face: seq<T>, n: nat)
    requires IsFace(face, n) && n > 0
    ensures TurnFace(TurnFace(face, n, 90), n, 90) == TurnFace(face, n, 180)
    ensures TurnFace(TurnFace(face, n, -90), n, -90) == TurnFace(face, n, 180)
  {
    TwoQuartersOneWay(face, n, 90);
    TwoQuartersOneWay(face, n, -90);
  }

  /** TurnFaceTwoQuarters for one direction. */
  lemma TwoQuartersOneWay<T>(face: seq<T>, n: nat, degrees: int)
    requires IsFace(face, n) && n > 0 && (degrees == 90 || degrees == -90)
    ensures TurnFace(TurnFace(face, n, degrees), n, degrees) == TurnFace(face, n, 180)
  {
    var once := TurnFace(face, n, degrees);
    var twice := TurnFace(once, n, degrees);
    var half := TurnFace(face, n, 180);
    forall r: nat, c: nat | r < n && c < n
      ensures At(twice, n, r, c) == At(half, n, r, c)
    {
      if degrees == 90 {
        assert At(twice, n, r, c) == At(once, n, n - 1 - c, r);
      } else {
        assert At(twice, n, r, c) == At(once, n, c, n - 1 - r);
      }
    }
    FaceExt(twice, half, n);
  }

  /** A half turn undoes itself. */
  lemma TurnFaceHalfInvolution<T>(face: seq<T>, n: nat)
    requires IsFace(face, n)
    ensures TurnFace(TurnFace(face, n, 180), n, 180) == face
  {
    ReverseInvolution(face);
  }

  /** Four quarter turns the same way restore the face. */
  lemma TurnFaceFourQuarters<T>(face: seq<T>, n: nat)
    requires IsFace(face, n) && n > 0
    ensures TurnFace(TurnFace(TurnFace(TurnFace(face, n, 90), n, 90), n, 90), n, 90) == face
    ensures TurnFace(TurnFace(TurnFace(TurnFace(face, n, -90), n, -90), n, -90), n, -90) == face
  {
    TurnFaceTwoQuarters(face, n);
    TurnFaceTwoQuarters(TurnFace(TurnFace(face, n, 90), n, 90), n);
    TurnFaceTwoQuarters(TurnFace(TurnFace(face, n, -90), n, -90), n);
    TurnFaceHalfInvolution(face, n);
  }

  /** Any degree other than 180 and 90 turns the face like -90. */
  lemma TurnFaceFallback<T>(face: seq<T>, n: nat, degrees: int)
    requires IsFace(face, n) && n > 0 && degrees != 180 && degrees != 90
    ensures TurnFace(face, n, degrees) == TurnFace(face, n, -90)
  {
  }
}
