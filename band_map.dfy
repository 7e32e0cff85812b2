/**
 * The adjacency table of the cube (src/band_map.js).
 *
 * For each of the six reference faces the table lists, in turning order, the
 * four neighbouring faces whose edges form the band that turns with it, and
 * for each neighbour which kind of edge touches it, whether the depth counts
 * from the near side (`inOrder`) or the far side, and whether the edge is read
 * and written back to front (`isReversed`).
 */
module BandMap {

  /** The six faces: Up, Left, Front, Right, Back, Down. */
  datatype FaceId = U | L | F | R | B | D

  /** How a face is sliced: into rows or into columns. */
  datatype ChunkKind = Rows | Cols

  /** One entry of the table. */
  datatype Entry = Entry(face: FaceId, chunk: ChunkKind, inOrder: bool, isReversed: bool)

  /** The face across the cube: U/D, L/R, F/B. */
  function Opposite(x: FaceId): FaceId
  {
    match x
    case U => D
    case D => U
    case L => R
    case R => L
    case F => B
    case B => F
  }

  /** The four entries of the band that turns with reference face `x`. */
  function Band(x: FaceId): (es: seq<Entry>)
    ensures |es| == 4
  {
    match x
    case U => [Entry(B, Rows, true, false), Entry(R, Rows, true, false),
               Entry(F, Rows, true, false), Entry(L, Rows, true, false)]
    case L => [Entry(U, Cols, true, false), Entry(F, Cols, true, false),
               Entry(D, Cols, true, false), Entry(B, Cols, false, true)]
    case F => [Entry(U, Rows, false, true), Entry(R, Cols, true, true),
               Entry(D, Rows, true, false), Entry(L, Cols, false, false)]
    case R => [Entry(U, Cols, false, true), Entry(B, Cols, true, false),
               Entry(D, Cols, false, true), Entry(F, Cols, false, true)]
    case B => [Entry(U, Rows, true, true), Entry(L, Cols, true, false),
               Entry(D, Rows, false, false), Entry(R, Cols, false, true)]
    case D => [Entry(F, Rows, false, false), Entry(R, Rows, false, false),
               Entry(B, Rows, false, false), Entry(L, Rows, false, false)]
  }

  /** The faces named by a list of entries, in order. */
  function FacesOf(es: seq<Entry>): (fs: seq<FaceId>)
    ensures |fs| == |es| && forall i | 0 <= i < |es| :: fs[i] == es[i].face
  {
    seq(|es|, i requires 0 <= i < |es| => es[i].face)
  }

  /**
   * Where the opposite band starts when it is read against this one: the
   * entry of `Opposite(x)` at position j names the face of the entry of `x`
   * at position (MirrorShift(x) - j) mod 4.
   */
  function MirrorShift(x: FaceId): int
  {
    if x == U || x == D then 2 else 0
  }

  /** Whether the band of the opposite face reads the shared edges back to front: only for the L/R pair. */
  predicate Flips(x: FaceId)
  {
    x == L || x == R
  }

  /** No two entries name the same face. */
  predicate DistinctFaces(es: seq<Entry>)
  {
    forall a, b | 0 <= a < b < |es| :: es[a].face != es[b].face
  }

  /** The shape of a table row: four entries naming four different faces. */
  predicate IsRow(es: seq<Entry>)
  {
    |es| == 4 && DistinctFaces(es)
  }

  /**
   * Entry `e'` addresses the row or column of `e` from the other side: same
   * face, same kind of slice, depth counted from the opposite side, and the
   * reading direction flipped relative to `e` exactly when `flip`.
   */
  predicate MirrorEntry(e: Entry, e': Entry, flip: bool)
  {
    e'.face == e.face && e'.chunk == e.chunk && e'.inOrder == !e.inOrder &&
    (e'.isReversed != e.isReversed) == flip
  }

  /** Row `es'` mirrors row `es` in reverse cyclic order: entry j of `es'` mirrors entry (shift - j) mod 4 of `es`. */
  predicate MirrorRows(es: seq<Entry>, es': seq<Entry>, shift: int, flip: bool)
  {
    |es| == 4 && |es'| == 4 && forall j | 0 <= j < 4 :: MirrorEntry(es[(shift - j) % 4], es'[j], flip)
  }

  /**
   * Every table row has four entries naming four distinct faces, which are
   * exactly the faces other than the reference face and its opposite.
   */
  lemma BandNamesTheSideFaces(x: FaceId)
    ensures IsRow(Band(x))
    ensures forall g :: g in FacesOf(Band(x)) <==> g != x && g != Opposite(x)
  {
    BandIsRow(x);
    BandAvoidsAxis(x);
    var es := Band(x);
    assert FacesOf(es) == [es[0].face, es[1].face, es[2].face, es[3].face];
  }

  /** Every table row has the shape of a row. */
  lemma BandIsRow(x: FaceId)
    ensures IsRow(Band(x))
  {
  }

  /** No entry of a band names the reference face or its opposite. */
  lemma BandAvoidsAxis(x: FaceId)
    ensures x !in FacesOf(Band(x)) && Opposite(x) !in FacesOf(Band(x))
  {
    var es := Band(x);
    assert FacesOf(es) == [es[0].face, es[1].face, es[2].face, es[3].face];
  }

  /**
   * The edge kind is fixed by the axis: the U and D bands use rows, the L and
   * R bands use columns, and the F and B bands use the rows of U and D and
   * the columns of L and R.
   */
  lemma EdgeKindFollowsAxis(x: FaceId, i: int)
    requires 0 <= i < 4
    ensures (x == U || x == D) ==> Band(x)[i].chunk == Rows
    ensures (x == L || x == R) ==> Band(x)[i].chunk == Cols
    ensures (x == F || x == B) ==>
      Band(x)[i].chunk == (if Band(x)[i].face in {U, D} then Rows else Cols)
  {
  }

  /**
   * Opposite reference faces list the same four faces in reverse cyclic
   * order. Each pair of entries naming the same face slices it the same way
   * and counts depth from opposite sides; the L/R pair also flips the
   * reading direction, the U/D and F/B pairs keep it.
   */
  lemma OppositeBandMirrors(x: FaceId)
    ensures MirrorRows(Band(x), Band(Opposite(x)), MirrorShift(x), Flips(x))
  {
    forall j | 0 <= j < 4
      ensures MirrorEntry(Band(x)[(MirrorShift(x) - j) % 4], Band(Opposite(x))[j], Flips(x))
    {
      if x == U || x == D {
        assert (MirrorShift(x) - j) % 4 == (2 - j) % 4;
      } else {
        assert (MirrorShift(x) - j) % 4 == (4 - j) % 4;
      }
    }
  }

  /** A face that a row does not name is not named by a row mirroring it either. */
  lemma MirrorRowsNameSameFaces(es: seq<Entry>, es': seq<Entry>, shift: int, flip: bool, g: FaceId)
    requires MirrorRows(es, es', shift, flip) && g !in FacesOf(es)
    ensures g !in FacesOf(es')
  {
    forall j | 0 <= j < 4
      ensures FacesOf(es')[j] != g
    {
      var k := (shift - j) % 4;
      assert MirrorEntry(es[k], es'[j], flip);
      assert FacesOf(es)[k] == es[k].face;
    }
  }

  /**
   * The U band reads every side face from the top row and the D band from
   * the bottom row, neither of them reversed.
   */
  lemma UpAndDownBands(i: int)
    requires 0 <= i < 4
    ensures Band(U)[i].chunk == Rows && Band(U)[i].inOrder && !Band(U)[i].isReversed
    ensures Band(D)[i].chunk == Rows && !Band(D)[i].inOrder && !Band(D)[i].isReversed
    ensures FacesOf(Band(U)) == [B, R, F, L] && FacesOf(Band(D)) == [F, R, B, L]
  {
  }
}
