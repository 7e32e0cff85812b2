/**
 * Worked instances on concrete faces and cubes, the values pinned by the
 * repository's test suite (tests/cube_test.js).
 */
module Examples {
  import opened BandMap
  import opened Faces
  import opened CubeState
  import opened Bands
  import opened Rotations

  /** The 3-by-3 face numbered 1..9 in reading order. */
  predicate IsNine(face: seq<int>)
  {
    face == [1, 2, 3, 4, 5, 6, 7, 8, 9]
  }

  /** The rows of the numbered face, which reassemble to it. */
  lemma ChunkRowsExample(face: seq<int>)
    requires IsNine(face)
    ensures Chunked(face, 3, Rows) == [[1, 2, 3], [4, 5, 6], [7, 8, 9]]
    ensures Unchunked([[1, 2, 3], [4, 5, 6], [7, 8, 9]], Rows) == face
  {
    var rows := Chunked(face, 3, Rows);
    forall i, j | 0 <= i < 3 && 0 <= j < 3
      ensures rows[i][j] == face[i * 3 + j]
    {
      ChunkedCell(face, 3, Rows, i, j);
    }
    assert rows[0] == [1, 2, 3] && rows[1] == [4, 5, 6] && rows[2] == [7, 8, 9];
    UnchunkChunk(face, 3, Rows);
  }

  /** The columns of the numbered face, which reassemble to it. */
  lemma ChunkColsExample(face: seq<int>)
    requires IsNine(face)
    ensures Chunked(face, 3, Cols) == [[1, 4, 7], [2, 5, 8], [3, 6, 9]]
    ensures Unchunked([[1, 4, 7], [2, 5, 8], [3, 6, 9]], Cols) == face
  {
    var cols := Chunked(face, 3, Cols);
    forall i, j | 0 <= i < 3 && 0 <= j < 3
      ensures cols[i][j] == face[j * 3 + i]
    {
      ChunkedCell(face, 3, Cols, i, j);
    }
    assert cols[0] == [1, 4, 7] && cols[1] == [2, 5, 8] && cols[2] == [3, 6, 9];
    UnchunkChunk(face, 3, Cols);
  }

  /** Reading rows from either side, at each depth, forwards and backwards. */
  lemma ReadRowsExample(face: seq<int>)
    requires IsNine(face)
    ensures ReadChunk(face, 3, Rows, 0, true, false) == [1, 2, 3]
    ensures ReadChunk(face, 3, Rows, 0, false, false) == [7, 8, 9]
    ensures ReadChunk(face, 3, Rows, 1, true, false) == [4, 5, 6]
    ensures ReadChunk(face, 3, Rows, 2, true, false) == [7, 8, 9]
    ensures ReadChunk(face, 3, Rows, 0, true, true) == [3, 2, 1]
  {
    ChunkRowsExample(face);
  }

  /** Reading columns from either side, at each depth, forwards and backwards. */
  lemma ReadColsExample(face: seq<int>)
    requires IsNine(face)
    ensures ReadChunk(face, 3, Cols, 0, true, false) == [1, 4, 7]
    ensures ReadChunk(face, 3, Cols, 0, false, false) == [3, 6, 9]
    ensures ReadChunk(face, 3, Cols, 1, true, false) == [2, 5, 8]
    ensures ReadChunk(face, 3, Cols, 2, true, false) == [3, 6, 9]
    ensures ReadChunk(face, 3, Cols, 0, true, true) == [7, 4, 1]
  {
    ChunkColsExample(face);
  }

  /** Three chunks concatenate in order. */
  lemma ConcatThree<X>(a: seq<X>, b: seq<X>, c: seq<X>)
    ensures Concat([a, b, c]) == a + b + c
  {
    assert [a, b, c][..2] == [a, b];
    assert [a, b][..1] == [a];
    assert [a][..0] == [];
    assert Concat([a]) == Concat([]) + a;
  }

  /** Face turns: a quarter turn each way. */
  lemma TurnFaceExample(face: seq<int>)
    requires IsNine(face)
    ensures TurnFace(face, 3, 90) == [7, 4, 1, 8, 5, 2, 9, 6, 3]
    ensures TurnFace(face, 3, -90) == [3, 6, 9, 2, 5, 8, 1, 4, 7]
  {
    ChunkColsExample(face);
    var cols: seq<seq<int>> := [[1, 4, 7], [2, 5, 8], [3, 6, 9]];
    assert Reverse([1, 4, 7]) == [7, 4, 1] && Reverse([2, 5, 8]) == [8, 5, 2] && Reverse([3, 6, 9]) == [9, 6, 3];
    assert ReverseEach(cols) == [[7, 4, 1], [8, 5, 2], [9, 6, 3]];
    assert Reverse(cols) == [[3, 6, 9], [2, 5, 8], [1, 4, 7]];
    ConcatThree([7, 4, 1], [8, 5, 2], [9, 6, 3]);
    ConcatThree([3, 6, 9], [2, 5, 8], [1, 4, 7]);
  }

  /** The half turn reverses the face. */
  lemma TurnFaceHalfExample(face: seq<int>)
    requires IsNine(face)
    ensures TurnFace(face, 3, 180) == [9, 8, 7, 6, 5, 4, 3, 2, 1]
  {
  }

  /**
   * Writing [10, 11, 12] into the top row, into the bottom row, at depths 1
   * and 2, and back to front into the top row.
   */
  lemma WriteRowsExample(face: seq<int>)
    requires IsNine(face)
    ensures Written(face, 3, Rows, 0, true, false, [10, 11, 12]) == [10, 11, 12, 4, 5, 6, 7, 8, 9]
    ensures Written(face, 3, Rows, 0, false, false, [10, 11, 12]) == [1, 2, 3, 4, 5, 6, 10, 11, 12]
    ensures Written(face, 3, Rows, 1, true, false, [10, 11, 12]) == [1, 2, 3, 10, 11, 12, 7, 8, 9]
    ensures Written(face, 3, Rows, 2, true, false, [10, 11, 12]) == [1, 2, 3, 4, 5, 6, 10, 11, 12]
    ensures Written(face, 3, Rows, 0, true, true, [12, 11, 10]) == [10, 11, 12, 4, 5, 6, 7, 8, 9]
  {
    ChunkRowsExample(face);
    var rows: seq<seq<int>> := [[1, 2, 3], [4, 5, 6], [7, 8, 9]];
    assert Reverse([12, 11, 10]) == [10, 11, 12];
    assert rows[0 := [10, 11, 12]] == [[10, 11, 12], [4, 5, 6], [7, 8, 9]];
    assert rows[1 := [10, 11, 12]] == [[1, 2, 3], [10, 11, 12], [7, 8, 9]];
    assert rows[2 := [10, 11, 12]] == [[1, 2, 3], [4, 5, 6], [10, 11, 12]];
    ConcatThree([10, 11, 12], [4, 5, 6], [7, 8, 9]);
    ConcatThree([1, 2, 3], [10, 11, 12], [7, 8, 9]);
    ConcatThree([1, 2, 3], [4, 5, 6], [10, 11, 12]);
  }

  /** Writing [10, 11, 12] into the left column and into the right column. */
  lemma WriteColsExample(face: seq<int>)
    requires IsNine(face)
    ensures Written(face, 3, Cols, 0, true, false, [10, 11, 12]) == [10, 2, 3, 11, 5, 6, 12, 8, 9]
    ensures Written(face, 3, Cols, 0, false, false, [10, 11, 12]) == [1, 2, 10, 4, 5, 11, 7, 8, 12]
  {
    WrittenCells(face, 3, Cols, 0, true, false, [10, 11, 12]);
    WrittenCells(face, 3, Cols, 0, false, false, [10, 11, 12]);
    FaceExt(Written(face, 3, Cols, 0, true, false, [10, 11, 12]), [10, 2, 3, 11, 5, 6, 12, 8, 9], 3);
    FaceExt(Written(face, 3, Cols, 0, false, false, [10, 11, 12]), [1, 2, 10, 4, 5, 11, 7, 8, 12], 3);
  }

  /** Writing [10, 11, 12] into the columns at depths 1 and 2. */
  lemma WriteColsDepthExample(face: seq<int>)
    requires IsNine(face)
    ensures Written(face, 3, Cols, 1, true, false, [10, 11, 12]) == [1, 10, 3, 4, 11, 6, 7, 12, 9]
    ensures Written(face, 3, Cols, 2, true, false, [10, 11, 12]) == [1, 2, 10, 4, 5, 11, 7, 8, 12]
  {
    WrittenCells(face, 3, Cols, 1, true, false, [10, 11, 12]);
    WrittenCells(face, 3, Cols, 2, true, false, [10, 11, 12]);
    FaceExt(Written(face, 3, Cols, 1, true, false, [10, 11, 12]), [1, 10, 3, 4, 11, 6, 7, 12, 9], 3);
    FaceExt(Written(face, 3, Cols, 2, true, false, [10, 11, 12]), [1, 2, 10, 4, 5, 11, 7, 8, 12], 3);
  }

  /** Writing [12, 11, 10] back to front into the left column. */
  lemma WriteColsReversedExample(face: seq<int>)
    requires IsNine(face)
    ensures Written(face, 3, Cols, 0, true, true, [12, 11, 10]) == [10, 2, 3, 11, 5, 6, 12, 8, 9]
  {
    WrittenCells(face, 3, Cols, 0, true, true, [12, 11, 10]);
    FaceExt(Written(face, 3, Cols, 0, true, true, [12, 11, 10]), [10, 2, 3, 11, 5, 6, 12, 8, 9], 3);
  }

  // ---------------------------------------------------------------------
  // 2-by-2 faces and band turns

  /** Reading a row or column of a 2-by-2 face: which two stickers, in which order. */
  lemma ReadTwo<T>(face: seq<T>, kind: ChunkKind, depth: nat, inOrder: bool, isReversed: bool)
    requires IsFace(face, 2) && depth < 2
    ensures var index := SlotIndex(2, depth, inOrder);
            var first := if kind == Rows then face[index * 2] else face[index];
            var second := if kind == Rows then face[index * 2 + 1] else face[2 + index];
            ReadChunk(face, 2, kind, depth, inOrder, isReversed) == if isReversed then [second, first] else [first, second]
  {
    var index := SlotIndex(2, depth, inOrder);
    ReadChunkCells(face, 2, kind, depth, inOrder, isReversed);
    assert SlotCell(face, 2, kind, index, 0) == if kind == Rows then face[index * 2] else face[index];
    assert SlotCell(face, 2, kind, index, 1) == if kind == Rows then face[index * 2 + 1] else face[2 + index];
  }

  /** Writing a row or column of a 2-by-2 face: which two cells change, and to what. */
  lemma WriteTwo<T>(face: seq<T>, kind: ChunkKind, depth: nat, inOrder: bool, isReversed: bool, edge: seq<T>)
    requires IsFace(face, 2) && depth < 2 && |edge| == 2
    ensures var index := SlotIndex(2, depth, inOrder);
            var e0 := if isReversed then edge[1] else edge[0];
            var e1 := if isReversed then edge[0] else edge[1];
            Written(face, 2, kind, depth, inOrder, isReversed, edge)
              == if kind == Rows then (if index == 0 then [e0, e1, face[2], face[3]] else [face[0], face[1], e0, e1])
                 else (if index == 0 then [e0, face[1], e1, face[3]] else [face[0], e0, face[2], e1])
  {
    var index := SlotIndex(2, depth, inOrder);
    var e0 := if isReversed then edge[1] else edge[0];
    var e1 := if isReversed then edge[0] else edge[1];
    var expected := if kind == Rows then (if index == 0 then [e0, e1, face[2], face[3]] else [face[0], face[1], e0, e1])
                    else (if index == 0 then [e0, face[1], e1, face[3]] else [face[0], e0, face[2], e1]);
    WrittenCells(face, 2, kind, depth, inOrder, isReversed, edge);
    FaceExt(Written(face, 2, kind, depth, inOrder, isReversed, edge), expected, 2);
  }

  /** A sticker label: the face it starts on and its position there, 1 to 4 in reading order. */
  datatype Sticker = S(home: FaceId, pos: nat)

  /** The 2-by-2 cube whose stickers are labelled by face letter and position. */
  predicate IsLettered(s: Cube<Sticker>)
  {
    ValidCube(s, 2) &&
    s[U] == [S(U, 1), S(U, 2), S(U, 3), S(U, 4)] && s[L] == [S(L, 1), S(L, 2), S(L, 3), S(L, 4)] &&
    s[F] == [S(F, 1), S(F, 2), S(F, 3), S(F, 4)] && s[R] == [S(R, 1), S(R, 2), S(R, 3), S(R, 4)] &&
    s[B] == [S(B, 1), S(B, 2), S(B, 3), S(B, 4)] && s[D] == [S(D, 1), S(D, 2), S(D, 3), S(D, 4)]
  }

  /** After a band turn, the face named by entry i of the row holds the turned edge i written back. */
  lemma SideFaceAfterTurn<T>(s: Cube<T>, n: nat, x: FaceId, degrees: int, depth: nat, i: int)
    requires ValidCube(s, n) && depth < n && 0 <= i < 4
    ensures var e := Band(x)[i];
            IsFace(s[e.face], n) &&
            BandTurned(s, n, Band(x), degrees, depth)[e.face]
              == Written(s[e.face], n, e.chunk, depth, e.inOrder, e.isReversed, Turned(Edges(s, n, Band(x), depth), degrees)[i])
  {
    BandIsRow(x);
    WriteEdgesAt(s, n, Band(x), depth, Turned(Edges(s, n, Band(x), depth), degrees), i);
  }

  /** The edges of the top band of the lettered cube: the top rows of B, R, F and L. */
  lemma UpEdgesExample(s: Cube<Sticker>)
    requires IsLettered(s)
    ensures Edges(s, 2, Band(U), 0)
         == [[S(B, 1), S(B, 2)], [S(R, 1), S(R, 2)], [S(F, 1), S(F, 2)], [S(L, 1), S(L, 2)]]
  {
    ReadTwo(s[B], Rows, 0, true, false);
    ReadTwo(s[R], Rows, 0, true, false);
    ReadTwo(s[F], Rows, 0, true, false);
    ReadTwo(s[L], Rows, 0, true, false);
  }

  /** The top band turned a quarter: each side face takes the top row of the face before it in the row. */
  lemma TurnBandUpExample(s: Cube<Sticker>)
    requires IsLettered(s)
    ensures BandTurned(s, 2, Band(U), 90, 0)
         == CubeOf([S(U, 1), S(U, 2), S(U, 3), S(U, 4)], [S(F, 1), S(F, 2), S(L, 3), S(L, 4)],
                   [S(R, 1), S(R, 2), S(F, 3), S(F, 4)], [S(B, 1), S(B, 2), S(R, 3), S(R, 4)],
                   [S(L, 1), S(L, 2), S(B, 3), S(B, 4)], [S(D, 1), S(D, 2), S(D, 3), S(D, 4)])
  {
    UpEdgesExample(s);
    var band := Turned(Edges(s, 2, Band(U), 0), 90);
    assert band == [[S(L, 1), S(L, 2)], [S(B, 1), S(B, 2)], [S(R, 1), S(R, 2)], [S(F, 1), S(F, 2)]];
    var t := BandTurned(s, 2, Band(U), 90, 0);
    SideFaceAfterTurn(s, 2, U, 90, 0, 0);
    WriteTwo(s[B], Rows, 0, true, false, band[0]);
    assert t[B] == [S(L, 1), S(L, 2), S(B, 3), S(B, 4)];
    SideFaceAfterTurn(s, 2, U, 90, 0, 1);
    WriteTwo(s[R], Rows, 0, true, false, band[1]);
    assert t[R] == [S(B, 1), S(B, 2), S(R, 3), S(R, 4)];
    SideFaceAfterTurn(s, 2, U, 90, 0, 2);
    WriteTwo(s[F], Rows, 0, true, false, band[2]);
    assert t[F] == [S(R, 1), S(R, 2), S(F, 3), S(F, 4)];
    SideFaceAfterTurn(s, 2, U, 90, 0, 3);
    WriteTwo(s[L], Rows, 0, true, false, band[3]);
    assert t[L] == [S(F, 1), S(F, 2), S(L, 3), S(L, 4)];
    BandAvoidsAxis(U);
    TurnBandKeeps(s, 2, Band(U), 90, 0, U);
    TurnBandKeeps(s, 2, Band(U), 90, 0, D);
    SameFaces(t, CubeOf([S(U, 1), S(U, 2), S(U, 3), S(U, 4)], [S(F, 1), S(F, 2), S(L, 3), S(L, 4)],
                        [S(R, 1), S(R, 2), S(F, 3), S(F, 4)], [S(B, 1), S(B, 2), S(R, 3), S(R, 4)],
                        [S(L, 1), S(L, 2), S(B, 3), S(B, 4)], [S(D, 1), S(D, 2), S(D, 3), S(D, 4)]), 2);
  }

  /** The top band turned a quarter back: each side face takes the top row of the face after it in the row. */
  lemma TurnBandUpAnticlockwiseExample(s: Cube<Sticker>)
    requires IsLettered(s)
    ensures BandTurned(s, 2, Band(U), -90, 0)
         == CubeOf([S(U, 1), S(U, 2), S(U, 3), S(U, 4)], [S(B, 1), S(B, 2), S(L, 3), S(L, 4)],
                   [S(L, 1), S(L, 2), S(F, 3), S(F, 4)], [S(F, 1), S(F, 2), S(R, 3), S(R, 4)],
                   [S(R, 1), S(R, 2), S(B, 3), S(B, 4)], [S(D, 1), S(D, 2), S(D, 3), S(D, 4)])
  {
    UpEdgesExample(s);
    var band := Turned(Edges(s, 2, Band(U), 0), -90);
    assert band == [[S(R, 1), S(R, 2)], [S(F, 1), S(F, 2)], [S(L, 1), S(L, 2)], [S(B, 1), S(B, 2)]];
    var t := BandTurned(s, 2, Band(U), -90, 0);
    SideFaceAfterTurn(s, 2, U, -90, 0, 0);
    WriteTwo(s[B], Rows, 0, true, false, band[0]);
    assert t[B] == [S(R, 1), S(R, 2), S(B, 3), S(B, 4)];
    SideFaceAfterTurn(s, 2, U, -90, 0, 1);
    WriteTwo(s[R], Rows, 0, true, false, band[1]);
    assert t[R] == [S(F, 1), S(F, 2), S(R, 3), S(R, 4)];
    SideFaceAfterTurn(s, 2, U, -90, 0, 2);
    WriteTwo(s[F], Rows, 0, true, false, band[2]);
    assert t[F] == [S(L, 1), S(L, 2), S(F, 3), S(F, 4)];
    SideFaceAfterTurn(s, 2, U, -90, 0, 3);
    WriteTwo(s[L], Rows, 0, true, false, band[3]);
    assert t[L] == [S(B, 1), S(B, 2), S(L, 3), S(L, 4)];
    BandAvoidsAxis(U);
    TurnBandKeeps(s, 2, Band(U), -90, 0, U);
    TurnBandKeeps(s, 2, Band(U), -90, 0, D);
    SameFaces(t, CubeOf([S(U, 1), S(U, 2), S(U, 3), S(U, 4)], [S(B, 1), S(B, 2), S(L, 3), S(L, 4)],
                        [S(L, 1), S(L, 2), S(F, 3), S(F, 4)], [S(F, 1), S(F, 2), S(R, 3), S(R, 4)],
                        [S(R, 1), S(R, 2), S(B, 3), S(B, 4)], [S(D, 1), S(D, 2), S(D, 3), S(D, 4)]), 2);
  }

  /** The top band turned a half: each side face takes the top row of the face across the cube. */
  lemma TurnBandUpHalfExample(s: Cube<Sticker>)
    requires IsLettered(s)
    ensures BandTurned(s, 2, Band(U), 180, 0)
         == CubeOf([S(U, 1), S(U, 2), S(U, 3), S(U, 4)], [S(R, 1), S(R, 2), S(L, 3), S(L, 4)],
                   [S(B, 1), S(B, 2), S(F, 3), S(F, 4)], [S(L, 1), S(L, 2), S(R, 3), S(R, 4)],
                   [S(F, 1), S(F, 2), S(B, 3), S(B, 4)], [S(D, 1), S(D, 2), S(D, 3), S(D, 4)])
  {
    UpEdgesExample(s);
    var band := Turned(Edges(s, 2, Band(U), 0), 180);
    assert band == [[S(F, 1), S(F, 2)], [S(L, 1), S(L, 2)], [S(B, 1), S(B, 2)], [S(R, 1), S(R, 2)]];
    var t := BandTurned(s, 2, Band(U), 180, 0);
    SideFaceAfterTurn(s, 2, U, 180, 0, 0);
    WriteTwo(s[B], Rows, 0, true, false, band[0]);
    assert t[B] == [S(F, 1), S(F, 2), S(B, 3), S(B, 4)];
    SideFaceAfterTurn(s, 2, U, 180, 0, 1);
    WriteTwo(s[R], Rows, 0, true, false, band[1]);
    assert t[R] == [S(L, 1), S(L, 2), S(R, 3), S(R, 4)];
    SideFaceAfterTurn(s, 2, U, 180, 0, 2);
    WriteTwo(s[F], Rows, 0, true, false, band[2]);
    assert t[F] == [S(B, 1), S(B, 2), S(F, 3), S(F, 4)];
    SideFaceAfterTurn(s, 2, U, 180, 0, 3);
    WriteTwo(s[L], Rows, 0, true, false, band[3]);
    assert t[L] == [S(R, 1), S(R, 2), S(L, 3), S(L, 4)];
    BandAvoidsAxis(U);
    TurnBandKeeps(s, 2, Band(U), 180, 0, U);
    TurnBandKeeps(s, 2, Band(U), 180, 0, D);
    SameFaces(t, CubeOf([S(U, 1), S(U, 2), S(U, 3), S(U, 4)], [S(R, 1), S(R, 2), S(L, 3), S(L, 4)],
                        [S(B, 1), S(B, 2), S(F, 3), S(F, 4)], [S(L, 1), S(L, 2), S(R, 3), S(R, 4)],
                        [S(F, 1), S(F, 2), S(B, 3), S(B, 4)], [S(D, 1), S(D, 2), S(D, 3), S(D, 4)]), 2);
  }

  /**
   * The edges of the left band of the lettered cube: the left columns of U,
   * F and D and the right column of B, back to front.
   */
  lemma LeftEdgesExample(s: Cube<Sticker>)
    requires IsLettered(s)
    ensures Edges(s, 2, Band(L), 0)
         == [[S(U, 1), S(U, 3)], [S(F, 1), S(F, 3)], [S(D, 1), S(D, 3)], [S(B, 4), S(B, 2)]]
  {
    ReadTwo(s[U], Cols, 0, true, false);
    ReadTwo(s[F], Cols, 0, true, false);
    ReadTwo(s[D], Cols, 0, true, false);
    ReadTwo(s[B], Cols, 0, false, true);
  }

  /** The left band turned a quarter. */
  lemma TurnBandLeftExample(s: Cube<Sticker>)
    requires IsLettered(s)
    ensures BandTurned(s, 2, Band(L), 90, 0)
         == CubeOf([S(B, 4), S(U, 2), S(B, 2), S(U, 4)], [S(L, 1), S(L, 2), S(L, 3), S(L, 4)],
                   [S(U, 1), S(F, 2), S(U, 3), S(F, 4)], [S(R, 1), S(R, 2), S(R, 3), S(R, 4)],
                   [S(B, 1), S(D, 3), S(B, 3), S(D, 1)], [S(F, 1), S(D, 2), S(F, 3), S(D, 4)])
  {
    LeftEdgesExample(s);
    var band := Turned(Edges(s, 2, Band(L), 0), 90);
    assert band == [[S(B, 4), S(B, 2)], [S(U, 1), S(U, 3)], [S(F, 1), S(F, 3)], [S(D, 1), S(D, 3)]];
    var t := BandTurned(s, 2, Band(L), 90, 0);
    SideFaceAfterTurn(s, 2, L, 90, 0, 0);
    WriteTwo(s[U], Cols, 0, true, false, band[0]);
    assert t[U] == [S(B, 4), S(U, 2), S(B, 2), S(U, 4)];
    SideFaceAfterTurn(s, 2, L, 90, 0, 1);
    WriteTwo(s[F], Cols, 0, true, false, band[1]);
    assert t[F] == [S(U, 1), S(F, 2), S(U, 3), S(F, 4)];
    SideFaceAfterTurn(s, 2, L, 90, 0, 2);
    WriteTwo(s[D], Cols, 0, true, false, band[2]);
    assert t[D] == [S(F, 1), S(D, 2), S(F, 3), S(D, 4)];
    SideFaceAfterTurn(s, 2, L, 90, 0, 3);
    WriteTwo(s[B], Cols, 0, false, true, band[3]);
    assert t[B] == [S(B, 1), S(D, 3), S(B, 3), S(D, 1)];
    BandAvoidsAxis(L);
    TurnBandKeeps(s, 2, Band(L), 90, 0, L);
    TurnBandKeeps(s, 2, Band(L), 90, 0, R);
    SameFaces(t, CubeOf([S(B, 4), S(U, 2), S(B, 2), S(U, 4)], [S(L, 1), S(L, 2), S(L, 3), S(L, 4)],
                        [S(U, 1), S(F, 2), S(U, 3), S(F, 4)], [S(R, 1), S(R, 2), S(R, 3), S(R, 4)],
                        [S(B, 1), S(D, 3), S(B, 3), S(D, 1)], [S(F, 1), S(D, 2), S(F, 3), S(D, 4)]), 2);
  }

  /**
   * The edges of the front band of the lettered cube: the bottom row of U
   * and the left column of R, both back to front, the top row of D and the
   * right column of L.
   */
  lemma FrontEdgesExample(s: Cube<Sticker>)
    requires IsLettered(s)
    ensures Edges(s, 2, Band(F), 0)
         == [[S(U, 4), S(U, 3)], [S(R, 3), S(R, 1)], [S(D, 1), S(D, 2)], [S(L, 2), S(L, 4)]]
  {
    ReadTwo(s[U], Rows, 0, false, true);
    ReadTwo(s[R], Cols, 0, true, true);
    ReadTwo(s[D], Rows, 0, true, false);
    ReadTwo(s[L], Cols, 0, false, false);
  }

  /** The front band turned a quarter. */
  lemma TurnBandFrontExample(s: Cube<Sticker>)
    requires IsLettered(s)
    ensures BandTurned(s, 2, Band(F), 90, 0)
         == CubeOf([S(U, 1), S(U, 2), S(L, 4), S(L, 2)], [S(L, 1), S(D, 1), S(L, 3), S(D, 2)],
                   [S(F, 1), S(F, 2), S(F, 3), S(F, 4)], [S(U, 3), S(R, 2), S(U, 4), S(R, 4)],
                   [S(B, 1), S(B, 2), S(B, 3), S(B, 4)], [S(R, 3), S(R, 1), S(D, 3), S(D, 4)])
  {
    FrontEdgesExample(s);
    var band := Turned(Edges(s, 2, Band(F), 0), 90);
    assert band == [[S(L, 2), S(L, 4)], [S(U, 4), S(U, 3)], [S(R, 3), S(R, 1)], [S(D, 1), S(D, 2)]];
    var t := BandTurned(s, 2, Band(F), 90, 0);
    SideFaceAfterTurn(s, 2, F, 90, 0, 0);
    WriteTwo(s[U], Rows, 0, false, true, band[0]);
    assert t[U] == [S(U, 1), S(U, 2), S(L, 4), S(L, 2)];
    SideFaceAfterTurn(s, 2, F, 90, 0, 1);
    WriteTwo(s[R], Cols, 0, true, true, band[1]);
    assert t[R] == [S(U, 3), S(R, 2), S(U, 4), S(R, 4)];
    SideFaceAfterTurn(s, 2, F, 90, 0, 2);
    WriteTwo(s[D], Rows, 0, true, false, band[2]);
    assert t[D] == [S(R, 3), S(R, 1), S(D, 3), S(D, 4)];
    SideFaceAfterTurn(s, 2, F, 90, 0, 3);
    WriteTwo(s[L], Cols, 0, false, false, band[3]);
    assert t[L] == [S(L, 1), S(D, 1), S(L, 3), S(D, 2)];
    BandAvoidsAxis(F);
    TurnBandKeeps(s, 2, Band(F), 90, 0, F);
    TurnBandKeeps(s, 2, Band(F), 90, 0, B);
    SameFaces(t, CubeOf([S(U, 1), S(U, 2), S(L, 4), S(L, 2)], [S(L, 1), S(D, 1), S(L, 3), S(D, 2)],
                        [S(F, 1), S(F, 2), S(F, 3), S(F, 4)], [S(U, 3), S(R, 2), S(U, 4), S(R, 4)],
                        [S(B, 1), S(B, 2), S(B, 3), S(B, 4)], [S(R, 3), S(R, 1), S(D, 3), S(D, 4)]), 2);
  }

  /**
   * The edges of the right band of the lettered cube: the right columns of
   * U, D and F back to front, and the left column of B.
   */
  lemma RightEdgesExample(s: Cube<Sticker>)
    requires IsLettered(s)
    ensures Edges(s, 2, Band(R), 0)
         == [[S(U, 4), S(U, 2)], [S(B, 1), S(B, 3)], [S(D, 4), S(D, 2)], [S(F, 4), S(F, 2)]]
  {
    ReadTwo(s[U], Cols, 0, false, true);
    ReadTwo(s[B], Cols, 0, true, false);
    ReadTwo(s[D], Cols, 0, false, true);
    ReadTwo(s[F], Cols, 0, false, true);
  }

  /** The right band turned a quarter. */
  lemma TurnBandRightExample(s: Cube<Sticker>)
    requires IsLettered(s)
    ensures BandTurned(s, 2, Band(R), 90, 0)
         == CubeOf([S(U, 1), S(F, 2), S(U, 3), S(F, 4)], [S(L, 1), S(L, 2), S(L, 3), S(L, 4)],
                   [S(F, 1), S(D, 2), S(F, 3), S(D, 4)], [S(R, 1), S(R, 2), S(R, 3), S(R, 4)],
                   [S(U, 4), S(B, 2), S(U, 2), S(B, 4)], [S(D, 1), S(B, 3), S(D, 3), S(B, 1)])
  {
    RightEdgesExample(s);
    var band := Turned(Edges(s, 2, Band(R), 0), 90);
    assert band == [[S(F, 4), S(F, 2)], [S(U, 4), S(U, 2)], [S(B, 1), S(B, 3)], [S(D, 4), S(D, 2)]];
    var t := BandTurned(s, 2, Band(R), 90, 0);
    SideFaceAfterTurn(s, 2, R, 90, 0, 0);
    WriteTwo(s[U], Cols, 0, false, true, band[0]);
    assert t[U] == [S(U, 1), S(F, 2), S(U, 3), S(F, 4)];
    SideFaceAfterTurn(s, 2, R, 90, 0, 1);
    WriteTwo(s[B], Cols, 0, true, false, band[1]);
    assert t[B] == [S(U, 4), S(B, 2), S(U, 2), S(B, 4)];
    SideFaceAfterTurn(s, 2, R, 90, 0, 2);
    WriteTwo(s[D], Cols, 0, false, true, band[2]);
    assert t[D] == [S(D, 1), S(B, 3), S(D, 3), S(B, 1)];
    SideFaceAfterTurn(s, 2, R, 90, 0, 3);
    WriteTwo(s[F], Cols, 0, false, true, band[3]);
    assert t[F] == [S(F, 1), S(D, 2), S(F, 3), S(D, 4)];
    BandAvoidsAxis(R);
    TurnBandKeeps(s, 2, Band(R), 90, 0, R);
    TurnBandKeeps(s, 2, Band(R), 90, 0, L);
    SameFaces(t, CubeOf([S(U, 1), S(F, 2), S(U, 3), S(F, 4)], [S(L, 1), S(L, 2), S(L, 3), S(L, 4)],
                        [S(F, 1), S(D, 2), S(F, 3), S(D, 4)], [S(R, 1), S(R, 2), S(R, 3), S(R, 4)],
                        [S(U, 4), S(B, 2), S(U, 2), S(B, 4)], [S(D, 1), S(B, 3), S(D, 3), S(B, 1)]), 2);
  }

  /**
   * The edges of the back band of the lettered cube: the top row of U back
   * to front, the left column of L, the bottom row of D and the right column
   * of R back to front.
   */
  lemma BackEdgesExample(s: Cube<Sticker>)
    requires IsLettered(s)
    ensures Edges(s, 2, Band(B), 0)
         == [[S(U, 2), S(U, 1)], [S(L, 1), S(L, 3)], [S(D, 3), S(D, 4)], [S(R, 4), S(R, 2)]]
  {
    ReadTwo(s[U], Rows, 0, true, true);
    ReadTwo(s[L], Cols, 0, true, false);
    ReadTwo(s[D], Rows, 0, false, false);
    ReadTwo(s[R], Cols, 0, false, true);
  }

  /** The back band turned a quarter. */
  lemma TurnBandBackExample(s: Cube<Sticker>)
    requires IsLettered(s)
    ensures BandTurned(s, 2, Band(B), 90, 0)
         == CubeOf([S(R, 2), S(R, 4), S(U, 3), S(U, 4)], [S(U, 2), S(L, 2), S(U, 1), S(L, 4)],
                   [S(F, 1), S(F, 2), S(F, 3), S(F, 4)], [S(R, 1), S(D, 4), S(R, 3), S(D, 3)],
                   [S(B, 1), S(B, 2), S(B, 3), S(B, 4)], [S(D, 1), S(D, 2), S(L, 1), S(L, 3)])
  {
    BackEdgesExample(s);
    var band := Turned(Edges(s, 2, Band(B), 0), 90);
    assert band == [[S(R, 4), S(R, 2)], [S(U, 2), S(U, 1)], [S(L, 1), S(L, 3)], [S(D, 3), S(D, 4)]];
    var t := BandTurned(s, 2, Band(B), 90, 0);
    SideFaceAfterTurn(s, 2, B, 90, 0, 0);
    WriteTwo(s[U], Rows, 0, true, true, band[0]);
    assert t[U] == [S(R, 2), S(R, 4), S(U, 3), S(U, 4)];
    SideFaceAfterTurn(s, 2, B, 90, 0, 1);
    WriteTwo(s[L], Cols, 0, true, false, band[1]);
    assert t[L] == [S(U, 2), S(L, 2), S(U, 1), S(L, 4)];
    SideFaceAfterTurn(s, 2, B, 90, 0, 2);
    WriteTwo(s[D], Rows, 0, false, false, band[2]);
    assert t[D] == [S(D, 1), S(D, 2), S(L, 1), S(L, 3)];
    SideFaceAfterTurn(s, 2, B, 90, 0, 3);
    WriteTwo(s[R], Cols, 0, false, true, band[3]);
    assert t[R] == [S(R, 1), S(D, 4), S(R, 3), S(D, 3)];
    BandAvoidsAxis(B);
    TurnBandKeeps(s, 2, Band(B), 90, 0, B);
    TurnBandKeeps(s, 2, Band(B), 90, 0, F);
    SameFaces(t, CubeOf([S(R, 2), S(R, 4), S(U, 3), S(U, 4)], [S(U, 2), S(L, 2), S(U, 1), S(L, 4)],
                        [S(F, 1), S(F, 2), S(F, 3), S(F, 4)], [S(R, 1), S(D, 4), S(R, 3), S(D, 3)],
                        [S(B, 1), S(B, 2), S(B, 3), S(B, 4)], [S(D, 1), S(D, 2), S(L, 1), S(L, 3)]), 2);
  }

  /** The edges of the bottom band of the lettered cube: the bottom rows of F, R, B and L. */
  lemma DownEdgesExample(s: Cube<Sticker>)
    requires IsLettered(s)
    ensures Edges(s, 2, Band(D), 0)
         == [[S(F, 3), S(F, 4)], [S(R, 3), S(R, 4)], [S(B, 3), S(B, 4)], [S(L, 3), S(L, 4)]]
  {
    ReadTwo(s[F], Rows, 0, false, false);
    ReadTwo(s[R], Rows, 0, false, false);
    ReadTwo(s[B], Rows, 0, false, false);
    ReadTwo(s[L], Rows, 0, false, false);
  }

  /** The bottom band turned a quarter. */
  lemma TurnBandDownExample(s: Cube<Sticker>)
    requires IsLettered(s)
    ensures BandTurned(s, 2, Band(D), 90, 0)
         == CubeOf([S(U, 1), S(U, 2), S(U, 3), S(U, 4)], [S(L, 1), S(L, 2), S(B, 3), S(B, 4)],
                   [S(F, 1), S(F, 2), S(L, 3), S(L, 4)], [S(R, 1), S(R, 2), S(F, 3), S(F, 4)],
                   [S(B, 1), S(B, 2), S(R, 3), S(R, 4)], [S(D, 1), S(D, 2), S(D, 3), S(D, 4)])
  {
    DownEdgesExample(s);
    var band := Turned(Edges(s, 2, Band(D), 0), 90);
    assert band == [[S(L, 3), S(L, 4)], [S(F, 3), S(F, 4)], [S(R, 3), S(R, 4)], [S(B, 3), S(B, 4)]];
    var t := BandTurned(s, 2, Band(D), 90, 0);
    SideFaceAfterTurn(s, 2, D, 90, 0, 0);
    WriteTwo(s[F], Rows, 0, false, false, band[0]);
    assert t[F] == [S(F, 1), S(F, 2), S(L, 3), S(L, 4)];
    SideFaceAfterTurn(s, 2, D, 90, 0, 1);
    WriteTwo(s[R], Rows, 0, false, false, band[1]);
    assert t[R] == [S(R, 1), S(R, 2), S(F, 3), S(F, 4)];
    SideFaceAfterTurn(s, 2, D, 90, 0, 2);
    WriteTwo(s[B], Rows, 0, false, false, band[2]);
    assert t[B] == [S(B, 1), S(B, 2), S(R, 3), S(R, 4)];
    SideFaceAfterTurn(s, 2, D, 90, 0, 3);
    WriteTwo(s[L], Rows, 0, false, false, band[3]);
    assert t[L] == [S(L, 1), S(L, 2), S(B, 3), S(B, 4)];
    BandAvoidsAxis(D);
    TurnBandKeeps(s, 2, Band(D), 90, 0, D);
    TurnBandKeeps(s, 2, Band(D), 90, 0, U);
    SameFaces(t, CubeOf([S(U, 1), S(U, 2), S(U, 3), S(U, 4)], [S(L, 1), S(L, 2), S(B, 3), S(B, 4)],
                        [S(F, 1), S(F, 2), S(L, 3), S(L, 4)], [S(R, 1), S(R, 2), S(F, 3), S(F, 4)],
                        [S(B, 1), S(B, 2), S(R, 3), S(R, 4)], [S(D, 1), S(D, 2), S(D, 3), S(D, 4)]), 2);
  }

  // ---------------------------------------------------------------------
  // Whole-cube rotations

  /** Quarter turns of a 2-by-2 face. */
  lemma TurnTwo<T>(face: seq<T>)
    requires IsFace(face, 2)
    ensures TurnFace(face, 2, 90) == [face[2], face[0], face[3], face[1]]
    ensures TurnFace(face, 2, -90) == [face[1], face[3], face[0], face[2]]
  {
    FaceExt(TurnFace(face, 2, 90), [face[2], face[0], face[3], face[1]], 2);
    FaceExt(TurnFace(face, 2, -90), [face[1], face[3], face[0], face[2]], 2);
  }

  /** Reversing a 2-by-2 face. */
  lemma ReverseTwo<T>(face: seq<T>)
    requires |face| == 4
    ensures Reverse(face) == [face[3], face[2], face[1], face[0]]
  {
  }

  /** Rotations about X: a quarter turn (front goes up), a quarter turn back, and a half turn. */
  lemma RotateXExample(s: Cube<Sticker>)
    requires IsLettered(s)
    ensures RotateX(s, 2, 90)
         == CubeOf([S(F, 1), S(F, 2), S(F, 3), S(F, 4)], [S(L, 2), S(L, 4), S(L, 1), S(L, 3)],
                   [S(D, 1), S(D, 2), S(D, 3), S(D, 4)], [S(R, 3), S(R, 1), S(R, 4), S(R, 2)],
                   [S(U, 4), S(U, 3), S(U, 2), S(U, 1)], [S(B, 4), S(B, 3), S(B, 2), S(B, 1)])
    ensures RotateX(s, 2, -90)
         == CubeOf([S(B, 4), S(B, 3), S(B, 2), S(B, 1)], [S(L, 3), S(L, 1), S(L, 4), S(L, 2)],
                   [S(U, 1), S(U, 2), S(U, 3), S(U, 4)], [S(R, 2), S(R, 4), S(R, 1), S(R, 3)],
                   [S(D, 4), S(D, 3), S(D, 2), S(D, 1)], [S(F, 1), S(F, 2), S(F, 3), S(F, 4)])
    ensures RotateX(s, 2, 180)
         == CubeOf([S(D, 1), S(D, 2), S(D, 3), S(D, 4)], [S(L, 4), S(L, 3), S(L, 2), S(L, 1)],
                   [S(B, 4), S(B, 3), S(B, 2), S(B, 1)], [S(R, 4), S(R, 3), S(R, 2), S(R, 1)],
                   [S(F, 4), S(F, 3), S(F, 2), S(F, 1)], [S(U, 1), S(U, 2), S(U, 3), S(U, 4)])
  {
    TurnTwo(s[L]);
    TurnTwo(s[R]);
    ReverseTwo(s[U]);
    ReverseTwo(s[B]);
    ReverseTwo(s[D]);
    ReverseTwo(s[L]);
    ReverseTwo(s[F]);
    ReverseTwo(s[R]);
  }

  /** Rotations about Y: a quarter turn (right comes to the front), a quarter turn back, and a half turn. */
  lemma RotateYExample(s: Cube<Sticker>)
    requires IsLettered(s)
    ensures RotateY(s, 2, 90)
         == CubeOf([S(U, 3), S(U, 1), S(U, 4), S(U, 2)], [S(F, 1), S(F, 2), S(F, 3), S(F, 4)],
                   [S(R, 1), S(R, 2), S(R, 3), S(R, 4)], [S(B, 1), S(B, 2), S(B, 3), S(B, 4)],
                   [S(L, 1), S(L, 2), S(L, 3), S(L, 4)], [S(D, 2), S(D, 4), S(D, 1), S(D, 3)])
    ensures RotateY(s, 2, -90)
         == CubeOf([S(U, 2), S(U, 4), S(U, 1), S(U, 3)], [S(B, 1), S(B, 2), S(B, 3), S(B, 4)],
                   [S(L, 1), S(L, 2), S(L, 3), S(L, 4)], [S(F, 1), S(F, 2), S(F, 3), S(F, 4)],
                   [S(R, 1), S(R, 2), S(R, 3), S(R, 4)], [S(D, 3), S(D, 1), S(D, 4), S(D, 2)])
    ensures RotateY(s, 2, 180)
         == CubeOf([S(U, 4), S(U, 3), S(U, 2), S(U, 1)], [S(R, 1), S(R, 2), S(R, 3), S(R, 4)],
                   [S(B, 1), S(B, 2), S(B, 3), S(B, 4)], [S(L, 1), S(L, 2), S(L, 3), S(L, 4)],
                   [S(F, 1), S(F, 2), S(F, 3), S(F, 4)], [S(D, 4), S(D, 3), S(D, 2), S(D, 1)])
  {
    TurnTwo(s[U]);
    TurnTwo(s[D]);
    ReverseTwo(s[U]);
    ReverseTwo(s[D]);
  }

  /** Quarter rotations about Z: left goes up and every face turns, both ways along the same face cycle. */
  lemma RotateZExample(s: Cube<Sticker>)
    requires IsLettered(s)
    ensures RotateZ(s, 2, 90)
         == CubeOf([S(L, 3), S(L, 1), S(L, 4), S(L, 2)], [S(D, 3), S(D, 1), S(D, 4), S(D, 2)],
                   [S(F, 3), S(F, 1), S(F, 4), S(F, 2)], [S(U, 3), S(U, 1), S(U, 4), S(U, 2)],
                   [S(B, 2), S(B, 4), S(B, 1), S(B, 3)], [S(R, 3), S(R, 1), S(R, 4), S(R, 2)])
    ensures RotateZ(s, 2, -90)
         == CubeOf([S(L, 2), S(L, 4), S(L, 1), S(L, 3)], [S(D, 2), S(D, 4), S(D, 1), S(D, 3)],
                   [S(F, 2), S(F, 4), S(F, 1), S(F, 3)], [S(U, 2), S(U, 4), S(U, 1), S(U, 3)],
                   [S(B, 3), S(B, 1), S(B, 4), S(B, 2)], [S(R, 2), S(R, 4), S(R, 1), S(R, 3)])
  {
    TurnTwo(s[U]);
    TurnTwo(s[L]);
    TurnTwo(s[F]);
    TurnTwo(s[R]);
    TurnTwo(s[B]);
    TurnTwo(s[D]);
  }

  /** The half rotation about Z: every face is reversed and moves across the cube, except F and B, which stay. */
  lemma RotateZHalfExample(s: Cube<Sticker>)
    requires IsLettered(s)
    ensures RotateZ(s, 2, 180)
         == CubeOf([S(D, 4), S(D, 3), S(D, 2), S(D, 1)], [S(R, 4), S(R, 3), S(R, 2), S(R, 1)],
                   [S(F, 4), S(F, 3), S(F, 2), S(F, 1)], [S(L, 4), S(L, 3), S(L, 2), S(L, 1)],
                   [S(B, 4), S(B, 3), S(B, 2), S(B, 1)], [S(U, 4), S(U, 3), S(U, 2), S(U, 1)])
  {
    ReverseTwo(s[U]);
    ReverseTwo(s[L]);
    ReverseTwo(s[F]);
    ReverseTwo(s[R]);
    ReverseTwo(s[B]);
    ReverseTwo(s[D]);
  }

  /**
   * On the lettered cube, rotateZ by 90 and then by -90 leaves the old down
   * face, turned back, on top instead of the old up face.
   */
  lemma RotateZRoundTripExample(s: Cube<Sticker>)
    requires IsLettered(s)
    ensures RotateZ(RotateZ(s, 2, 90), 2, -90)[U] == [S(D, 1), S(D, 2), S(D, 3), S(D, 4)]
    ensures RotateZ(RotateZ(s, 2, 90), 2, -90) != s
  {
    RotateZQuarterTurnsDoNotCancel(s, 2);
  }
}
