/**
 * Band turns of src/cube.js (`turnBand`): the four edges that the adjacency
 * table names for a reference face are read, cycled by a quarter or half
 * turn, and written back.
 */
module Bands {
  import opened BandMap
  import opened Faces
  import opened CubeState

  /** `readChunk` on the face an entry names, with the entry's flags. */
  function ReadEntry<T>(s: Cube<T>, n: nat, e: Entry, depth: nat): (edge: seq<T>)
    requires ValidCube(s, n) && depth < n
    ensures |edge| == n
  {
    ReadChunk(s[e.face], n, e.chunk, depth, e.inOrder, e.isReversed)
  }

  /**
   * The edges the entries of `es` name at `depth`, in order: the first loop
   * of `turnBand` run over one table row.
   */
  function Edges<T>(s: Cube<T>, n: nat, es: seq<Entry>, depth: nat): (band: seq<seq<T>>)
    requires ValidCube(s, n) && depth < n
    ensures |band| == |es| && EdgesOfSize(band, n)
    ensures forall i | 0 <= i < |es| :: band[i] == ReadEntry(s, n, es[i], depth)
  {
    seq(|es|, i requires 0 <= i < |es| => ReadEntry(s, n, es[i], depth))
  }

  /** How many places back each slot takes its new edge from. */
  function Shift(degrees: int): nat
  {
    if degrees == 90 then 3 else if degrees == -90 then 1 else 2
  }

  /**
   * The band after the turn: 90 gives [e3, e0, e1, e2], -90 gives
   * [e1, e2, e3, e0] and any other value [e2, e3, e0, e1].
   */
  function Turned<T>(band: seq<seq<T>>, degrees: int): (t: seq<seq<T>>)
    requires |band| == 4
    ensures |t| == 4
    ensures forall n: nat :: EdgesOfSize(band, n) ==> EdgesOfSize(t, n)
  {
    if degrees == 90 then [band[3], band[0], band[1], band[2]]
    else if degrees == -90 then [band[1], band[2], band[3], band[0]]
    else [band[2], band[3], band[0], band[1]]
  }

  /** `data[e.face] = writeChunk(data[e.face], ...)` for one entry. */
  function WriteEntry<T>(s: Cube<T>, n: nat, e: Entry, depth: nat, edge: seq<T>): (t: Cube<T>)
    requires ValidCube(s, n) && depth < n && |edge| == n
    ensures ValidCube(t, n)
  {
    var written := Written(s[e.face], n, e.chunk, depth, e.inOrder, e.isReversed, edge);
    ValidCubeSet(s, n, e.face, written);
    s[e.face := written]
  }

  /** Every edge holds n stickers. */
  predicate EdgesOfSize<T>(band: seq<seq<T>>, n: nat)
  {
    forall i | 0 <= i < |band| :: |band[i]| == n
  }

  /** The state after the first k edges of `band` are written back, one entry after the other. */
  function WritePrefix<T>(s: Cube<T>, n: nat, es: seq<Entry>, depth: nat, band: seq<seq<T>>, k: nat): (t: Cube<T>)
    requires ValidCube(s, n) && depth < n && k <= |es| && k <= |band| && EdgesOfSize(band, n)
    ensures ValidCube(t, n)
  {
    if k == 0 then s
    else WriteEntry(WritePrefix(s, n, es, depth, band, k - 1), n, es[k - 1], depth, band[k - 1])
  }

  /** Every edge of `band` written back through the entry of `es` at the same position: the second loop of `turnBand`. */
  function WriteEdges<T>(s: Cube<T>, n: nat, es: seq<Entry>, depth: nat, band: seq<seq<T>>): (t: Cube<T>)
    requires ValidCube(s, n) && depth < n && |band| == |es| && EdgesOfSize(band, n)
    ensures ValidCube(t, n)
  {
    WritePrefix(s, n, es, depth, band, |band|)
  }

  /** `turnBand` over the table row `es`, as a function of the state. */
  function BandTurned<T>(s: Cube<T>, n: nat, es: seq<Entry>, degrees: int, depth: nat): (t: Cube<T>)
    requires ValidCube(s, n) && depth < n && |es| == 4
    ensures ValidCube(t, n)
  {
    WriteEdges(s, n, es, depth, Turned(Edges(s, n, es, depth), degrees))
  }

  /**
   * `turnBand(data, face, degrees, depth)`: read the four edges of the table
   * row of `face` in order, cycle them, then write each one back through the
   * entry it now belongs to. The result's band is the old band cycled, and
   * the reference face and its opposite are kept.
   */
  method TurnBand<T>(data: Cube<T>, n: nat, face: FaceId, degrees: int, depth: nat) returns (result: Cube<T>)
    requires ValidCube(data, n) && depth < n
    ensures result == BandTurned(data, n, Band(face), degrees, depth)
    ensures Edges(result, n, Band(face), depth) == Turned(Edges(data, n, Band(face), depth), degrees)
    ensures result[face] == data[face]
    ensures result[Opposite(face)] == data[Opposite(face)]
  {
    var maps := Band(face);
    assert IsRow(maps) by {
      BandIsRow(face);
    }
    var band: seq<seq<T>> := [];
    for i := 0 to 4
      invariant band == Edges(data, n, maps, depth)[..i]
    {
      var m := maps[i];
      assert IsFace(data[m.face], n);
      band := band + [ReadChunk(data[m.face], n, m.chunk, depth, m.inOrder, m.isReversed)];
    }
    if degrees == 90 {
      band := [band[3], band[0], band[1], band[2]];
    } else if degrees == -90 {
      band := [band[1], band[2], band[3], band[0]];
    } else {
      band := [band[2], band[3], band[0], band[1]];
    }
    assert band == Turned(Edges(data, n, maps, depth), degrees);
    result := data;
    for i := 0 to 4
      invariant result == WritePrefix(data, n, maps, depth, band, i)
    {
      var m := maps[i];
      WritePrefixStep(data, n, maps, depth, band, i);
      var written := WriteChunk(result[m.face], n, m.chunk, depth, m.inOrder, m.isReversed, band[i]);
      result := result[m.face := written];
    }
    assert Edges(result, n, maps, depth) == band by {
      TurnBandCycles(data, n, maps, degrees, depth);
    }
    assert face !in FacesOf(maps) && Opposite(face) !in FacesOf(maps) by {
      BandAvoidsAxis(face);
    }
    TurnBandKeeps(data, n, maps, degrees, depth, face);
    TurnBandKeeps(data, n, maps, degrees, depth, Opposite(face));
  }

  // ---------------------------------------------------------------------
  // Writing edges back

  /** One more entry written back: the face it names gets the edge written into it. */
  lemma WritePrefixStep<T>(s: Cube<T>, n: nat, es: seq<Entry>, depth: nat, band: seq<seq<T>>, k: nat)
    requires ValidCube(s, n) && depth < n && k < |es| && k < |band| && EdgesOfSize(band, n)
    ensures IsFace(WritePrefix(s, n, es, depth, band, k)[es[k].face], n)
    ensures WritePrefix(s, n, es, depth, band, k + 1)
         == WritePrefix(s, n, es, depth, band, k)[es[k].face :=
              Written(WritePrefix(s, n, es, depth, band, k)[es[k].face], n, es[k].chunk, depth, es[k].inOrder, es[k].isReversed, band[k])]
  {
  }

  /** Writing entries that do not name face g keeps g. */
  lemma {:induction false} WritePrefixKeeps<T>(s: Cube<T>, n: nat, es: seq<Entry>, depth: nat, band: seq<seq<T>>, k: nat, g: FaceId)
    requires ValidCube(s, n) && depth < n && k <= |es| && k <= |band| && EdgesOfSize(band, n)
    requires forall i | 0 <= i < k :: es[i].face != g
    ensures WritePrefix(s, n, es, depth, band, k)[g] == s[g]
  {
    if k > 0 {
      WritePrefixKeeps(s, n, es, depth, band, k - 1, g);
      WritePrefixStep(s, n, es, depth, band, k - 1);
      assert es[k - 1].face != g;
    }
  }

  /** Among entries naming distinct faces, the face of entry i ends up with edge i written through entry i. */
  lemma {:induction false} WritePrefixWrites<T>(s: Cube<T>, n: nat, es: seq<Entry>, depth: nat, band: seq<seq<T>>, k: nat, i: nat)
    requires ValidCube(s, n) && depth < n && k <= |es| && k <= |band| && EdgesOfSize(band, n)
    requires DistinctFaces(es) && i < k
    ensures IsFace(s[es[i].face], n)
    ensures WritePrefix(s, n, es, depth, band, k)[es[i].face]
         == Written(s[es[i].face], n, es[i].chunk, depth, es[i].inOrder, es[i].isReversed, band[i])
  {
    assert IsFace(s[es[i].face], n);
    var before := WritePrefix(s, n, es, depth, band, k - 1);
    var e := es[k - 1];
    assert IsFace(before[e.face], n);
    var after := before[e.face := Written(before[e.face], n, e.chunk, depth, e.inOrder, e.isReversed, band[k - 1])];
    assert WritePrefix(s, n, es, depth, band, k) == after;
    if i == k - 1 {
      WritePrefixKeeps(s, n, es, depth, band, k - 1, es[i].face);
      assert before[e.face] == s[e.face];
    } else {
      WritePrefixWrites(s, n, es, depth, band, k - 1, i);
      assert e.face != es[i].face;
      assert after[es[i].face] == before[es[i].face];
    }
  }

  /** Writing a band back keeps every face its entries do not name. */
  lemma WriteEdgesKeeps<T>(s: Cube<T>, n: nat, es: seq<Entry>, depth: nat, band: seq<seq<T>>, g: FaceId)
    requires ValidCube(s, n) && depth < n && |band| == |es| && EdgesOfSize(band, n)
    requires g !in FacesOf(es)
    ensures WriteEdges(s, n, es, depth, band)[g] == s[g]
  {
    forall i | 0 <= i < |band|
      ensures es[i].face != g
    {
      assert FacesOf(es)[i] == es[i].face;
    }
    WritePrefixKeeps(s, n, es, depth, band, |band|, g);
  }

  /** When the entries name distinct faces, the face named by entry i holds edge i written through that entry. */
  lemma WriteEdgesAt<T>(s: Cube<T>, n: nat, es: seq<Entry>, depth: nat, band: seq<seq<T>>, i: int)
    requires ValidCube(s, n) && depth < n && |band| == |es| && EdgesOfSize(band, n)
    requires DistinctFaces(es) && 0 <= i < |es|
    ensures IsFace(s[es[i].face], n)
    ensures WriteEdges(s, n, es, depth, band)[es[i].face]
         == Written(s[es[i].face], n, es[i].chunk, depth, es[i].inOrder, es[i].isReversed, band[i])
  {
    WritePrefixWrites(s, n, es, depth, band, |band|, i);
  }

  /** Reading the band back after writing it gives the written edges. */
  lemma EdgesAfterWrite<T>(s: Cube<T>, n: nat, es: seq<Entry>, depth: nat, band: seq<seq<T>>)
    requires ValidCube(s, n) && depth < n && |band| == |es| && EdgesOfSize(band, n) && DistinctFaces(es)
    ensures Edges(WriteEdges(s, n, es, depth, band), n, es, depth) == band
  {
    var t := WriteEdges(s, n, es, depth, band);
    forall i | 0 <= i < |es|
      ensures Edges(t, n, es, depth)[i] == band[i]
    {
      var e := es[i];
      WriteEdgesAt(s, n, es, depth, band, i);
      ReadAfterWrite(s[e.face], n, e.chunk, depth, e.inOrder, e.isReversed, band[i]);
    }
  }

  /** A second write of the band overrides the first. */
  lemma WriteEdgesTwice<T>(s: Cube<T>, n: nat, es: seq<Entry>, depth: nat, first: seq<seq<T>>, second: seq<seq<T>>)
    requires ValidCube(s, n) && depth < n && DistinctFaces(es)
    requires |first| == |es| && EdgesOfSize(first, n) && |second| == |es| && EdgesOfSize(second, n)
    ensures WriteEdges(WriteEdges(s, n, es, depth, first), n, es, depth, second) == WriteEdges(s, n, es, depth, second)
  {
    var once := WriteEdges(s, n, es, depth, first);
    var lhs := WriteEdges(once, n, es, depth, second);
    var rhs := WriteEdges(s, n, es, depth, second);
    forall g
      ensures lhs[g] == rhs[g]
    {
      if i :| 0 <= i < |es| && es[i].face == g {
        var e := es[i];
        WriteEdgesAt(s, n, es, depth, first, i);
        WriteEdgesAt(once, n, es, depth, second, i);
        WriteEdgesAt(s, n, es, depth, second, i);
        WriteAfterWrite(s[g], n, e.chunk, depth, e.inOrder, e.isReversed, first[i], second[i]);
      } else {
        WriteEdgesKeeps(s, n, es, depth, first, g);
        WriteEdgesKeeps(once, n, es, depth, second, g);
        WriteEdgesKeeps(s, n, es, depth, second, g);
      }
    }
    CubeExt(lhs, rhs);
  }

  /** Writing back the band just read leaves the state unchanged. */
  lemma WriteEdgesRead<T>(s: Cube<T>, n: nat, es: seq<Entry>, depth: nat)
    requires ValidCube(s, n) && depth < n && DistinctFaces(es)
    ensures WriteEdges(s, n, es, depth, Edges(s, n, es, depth)) == s
  {
    var band := Edges(s, n, es, depth);
    var t := WriteEdges(s, n, es, depth, band);
    forall g
      ensures t[g] == s[g]
    {
      if i :| 0 <= i < |es| && es[i].face == g {
        var e := es[i];
        WriteEdgesAt(s, n, es, depth, band, i);
        WriteBackRead(s[g], n, e.chunk, depth, e.inOrder, e.isReversed);
      } else {
        WriteEdgesKeeps(s, n, es, depth, band, g);
      }
    }
    CubeExt(t, s);
  }

  // ---------------------------------------------------------------------
  // What a band turn does

  /** After the turn the band reads as the old band cycled (see Turned). */
  lemma TurnBandCycles<T>(s: Cube<T>, n: nat, es: seq<Entry>, degrees: int, depth: nat)
    requires ValidCube(s, n) && depth < n && IsRow(es)
    ensures Edges(BandTurned(s, n, es, degrees, depth), n, es, depth) == Turned(Edges(s, n, es, depth), degrees)
  {
    EdgesAfterWrite(s, n, es, depth, Turned(Edges(s, n, es, depth), degrees));
  }

  /** A band turn keeps every face the row does not name. */
  lemma TurnBandKeeps<T>(s: Cube<T>, n: nat, es: seq<Entry>, degrees: int, depth: nat, g: FaceId)
    requires ValidCube(s, n) && depth < n && |es| == 4 && g !in FacesOf(es)
    ensures BandTurned(s, n, es, degrees, depth)[g] == s[g]
  {
    WriteEdgesKeeps(s, n, es, depth, Turned(Edges(s, n, es, depth), degrees), g);
  }

  /** In the selected row or column of face `e.face` at `depth`. */
  predicate InSlot(e: Entry, n: nat, depth: nat, r: nat, c: nat)
    requires depth < n
  {
    if e.chunk == Rows then r == SlotIndex(n, depth, e.inOrder) else c == SlotIndex(n, depth, e.inOrder)
  }

  /** A band turn keeps every cell of the four band faces outside the row or column its entry selects. */
  lemma TurnBandFrame<T>(s: Cube<T>, n: nat, es: seq<Entry>, degrees: int, depth: nat)
    requires ValidCube(s, n) && depth < n && IsRow(es)
    ensures forall i, r: nat, c: nat | 0 <= i < 4 && r < n && c < n && !InSlot(es[i], n, depth, r, c) ::
      IsFace(s[es[i].face], n) && IsFace(BandTurned(s, n, es, degrees, depth)[es[i].face], n) &&
      At(BandTurned(s, n, es, degrees, depth)[es[i].face], n, r, c) == At(s[es[i].face], n, r, c)
  {
    var band := Turned(Edges(s, n, es, depth), degrees);
    var t := BandTurned(s, n, es, degrees, depth);
    assert t == WriteEdges(s, n, es, depth, band);
    forall i, r: nat, c: nat | 0 <= i < 4 && r < n && c < n && !InSlot(es[i], n, depth, r, c)
      ensures At(t[es[i].face], n, r, c) == At(s[es[i].face], n, r, c)
    {
      var e := es[i];
      WriteEdgesAt(s, n, es, depth, band, i);
      WrittenCell(s[e.face], n, e.chunk, depth, e.inOrder, e.isReversed, band[i], r, c);
    }
  }

  /** Two turns in a row write the band once, cycled by both. */
  lemma TurnBandTwice<T>(s: Cube<T>, n: nat, es: seq<Entry>, first: int, second: int, depth: nat)
    requires ValidCube(s, n) && depth < n && IsRow(es)
    ensures BandTurned(BandTurned(s, n, es, first, depth), n, es, second, depth)
         == WriteEdges(s, n, es, depth, Turned(Turned(Edges(s, n, es, depth), first), second))
  {
    var once := Turned(Edges(s, n, es, depth), first);
    var t := WriteEdges(s, n, es, depth, once);
    assert Edges(t, n, es, depth) == once by {
      EdgesAfterWrite(s, n, es, depth, once);
    }
    assert WriteEdges(t, n, es, depth, Turned(once, second)) == WriteEdges(s, n, es, depth, Turned(once, second)) by {
      WriteEdgesTwice(s, n, es, depth, once, Turned(once, second));
    }
  }

  /** Turning a quarter and a quarter back restores the state, in either order. */
  lemma TurnBandQuarterInverse<T>(s: Cube<T>, n: nat, es: seq<Entry>, depth: nat)
    requires ValidCube(s, n) && depth < n && IsRow(es)
    ensures BandTurned(BandTurned(s, n, es, 90, depth), n, es, -90, depth) == s
    ensures BandTurned(BandTurned(s, n, es, -90, depth), n, es, 90, depth) == s
  {
    var e := Edges(s, n, es, depth);
    assert Turned(Turned(e, 90), -90) == e;
    assert Turned(Turned(e, -90), 90) == e;
    assert BandTurned(BandTurned(s, n, es, 90, depth), n, es, -90, depth) == WriteEdges(s, n, es, depth, e) by {
      TurnBandTwice(s, n, es, 90, -90, depth);
    }
    assert BandTurned(BandTurned(s, n, es, -90, depth), n, es, 90, depth) == WriteEdges(s, n, es, depth, e) by {
      TurnBandTwice(s, n, es, -90, 90, depth);
    }
    WriteEdgesRead(s, n, es, depth);
  }

  /** Two quarter turns the same way are a half turn. */
  lemma TurnBandTwoQuarters<T>(s: Cube<T>, n: nat, es: seq<Entry>, depth: nat)
    requires ValidCube(s, n) && depth < n && IsRow(es)
    ensures BandTurned(BandTurned(s, n, es, 90, depth), n, es, 90, depth) == BandTurned(s, n, es, 180, depth)
    ensures BandTurned(BandTurned(s, n, es, -90, depth), n, es, -90, depth) == BandTurned(s, n, es, 180, depth)
  {
    var e := Edges(s, n, es, depth);
    assert Turned(Turned(e, 90), 90) == Turned(e, 180);
    assert Turned(Turned(e, -90), -90) == Turned(e, 180);
    assert BandTurned(BandTurned(s, n, es, 90, depth), n, es, 90, depth) == WriteEdges(s, n, es, depth, Turned(e, 180)) by {
      TurnBandTwice(s, n, es, 90, 90, depth);
    }
    assert BandTurned(BandTurned(s, n, es, -90, depth), n, es, -90, depth) == WriteEdges(s, n, es, depth, Turned(e, 180)) by {
      TurnBandTwice(s, n, es, -90, -90, depth);
    }
  }

  /** A half turn undoes itself. */
  lemma TurnBandHalfInvolution<T>(s: Cube<T>, n: nat, es: seq<Entry>, depth: nat)
    requires ValidCube(s, n) && depth < n && IsRow(es)
    ensures BandTurned(BandTurned(s, n, es, 180, depth), n, es, 180, depth) == s
  {
    var e := Edges(s, n, es, depth);
    assert Turned(Turned(e, 180), 180) == e;
    assert BandTurned(BandTurned(s, n, es, 180, depth), n, es, 180, depth) == WriteEdges(s, n, es, depth, e) by {
      TurnBandTwice(s, n, es, 180, 180, depth);
    }
    WriteEdgesRead(s, n, es, depth);
  }

  /** Four quarter turns the same way restore the state. */
  lemma TurnBandFourQuarters<T>(s: Cube<T>, n: nat, es: seq<Entry>, depth: nat)
    requires ValidCube(s, n) && depth < n && IsRow(es)
    ensures BandTurned(BandTurned(BandTurned(BandTurned(s, n, es, 90, depth), n, es, 90, depth), n, es, 90, depth), n, es, 90, depth) == s
  {
    var half := BandTurned(BandTurned(s, n, es, 90, depth), n, es, 90, depth);
    TurnBandTwoQuarters(s, n, es, depth);
    TurnBandTwoQuarters(half, n, es, depth);
    TurnBandHalfInvolution(s, n, es, depth);
  }

  /** Any degree other than 90 and -90 turns the band like 180. */
  lemma TurnBandFallback<T>(s: Cube<T>, n: nat, es: seq<Entry>, degrees: int, depth: nat)
    requires ValidCube(s, n) && depth < n && |es| == 4 && degrees != 90 && degrees != -90
    ensures BandTurned(s, n, es, degrees, depth) == BandTurned(s, n, es, 180, depth)
  {
  }

  /**
   * The laws above for the band of each of the six table rows: the frame,
   * the quarter-turn inverse, two quarters making a half, the half turn
   * undoing itself and four quarters restoring the cube.
   */
  lemma BandTurnLaws<T>(s: Cube<T>, n: nat, x: FaceId, depth: nat)
    requires ValidCube(s, n) && depth < n
    ensures forall degrees: int, i, r: nat, c: nat | 0 <= i < 4 && r < n && c < n && !InSlot(Band(x)[i], n, depth, r, c) ::
      IsFace(BandTurned(s, n, Band(x), degrees, depth)[Band(x)[i].face], n) &&
      At(BandTurned(s, n, Band(x), degrees, depth)[Band(x)[i].face], n, r, c) == At(s[Band(x)[i].face], n, r, c)
    ensures BandTurned(BandTurned(s, n, Band(x), 90, depth), n, Band(x), -90, depth) == s
    ensures BandTurned(BandTurned(s, n, Band(x), -90, depth), n, Band(x), 90, depth) == s
    ensures BandTurned(BandTurned(s, n, Band(x), 90, depth), n, Band(x), 90, depth) == BandTurned(s, n, Band(x), 180, depth)
    ensures BandTurned(BandTurned(s, n, Band(x), -90, depth), n, Band(x), -90, depth) == BandTurned(s, n, Band(x), 180, depth)
    ensures BandTurned(BandTurned(s, n, Band(x), 180, depth), n, Band(x), 180, depth) == s
    ensures BandTurned(BandTurned(BandTurned(BandTurned(s, n, Band(x), 90, depth), n, Band(x), 90, depth),
                                  n, Band(x), 90, depth), n, Band(x), 90, depth) == s
  {
    var es := Band(x);
    BandIsRow(x);
    forall degrees: int
      ensures forall i, r: nat, c: nat | 0 <= i < 4 && r < n && c < n && !InSlot(es[i], n, depth, r, c) ::
        IsFace(BandTurned(s, n, es, degrees, depth)[es[i].face], n) &&
        At(BandTurned(s, n, es, degrees, depth)[es[i].face], n, r, c) == At(s[es[i].face], n, r, c)
    {
      TurnBandFrame(s, n, es, degrees, depth);
    }
    TurnBandQuarterInverse(s, n, es, depth);
    TurnBandTwoQuarters(s, n, es, depth);
    TurnBandHalfInvolution(s, n, es, depth);
    TurnBandFourQuarters(s, n, es, depth);
  }

  // ---------------------------------------------------------------------
  // Opposite bands

  /** Slot i of the turned band holds the edge Shift(degrees) places further on. */
  lemma TurnedAt<T>(band: seq<seq<T>>, degrees: int, i: int, i': int)
    requires |band| == 4 && 0 <= i < 4 && i' == (i + Shift(degrees)) % 4
    ensures Turned(band, degrees)[i] == band[i']
  {
  }

  /** A mirroring entry reads, at the mirrored depth, the same edge, flipped when `flip`. */
  lemma MirroredRead<T>(s: Cube<T>, n: nat, e: Entry, e': Entry, flip: bool, depth: nat)
    requires ValidCube(s, n) && depth < n && MirrorEntry(e, e', flip)
    ensures ReadEntry(s, n, e', n - 1 - depth) == Oriented(flip, ReadEntry(s, n, e, depth))
  {
    assert IsFace(s[e.face], n);
    ReadSameSlot(s[e.face], n, e.chunk, depth, e.inOrder, e.isReversed, n - 1 - depth, e'.inOrder, e'.isReversed);
  }

  /** A mirroring entry writes, at the mirrored depth, the flipped edge to the same cells. */
  lemma MirroredWrite<T>(face: seq<T>, n: nat, e: Entry, e': Entry, flip: bool, depth: nat, edge: seq<T>)
    requires IsFace(face, n) && depth < n && |edge| == n && MirrorEntry(e, e', flip)
    ensures Written(face, n, e'.chunk, n - 1 - depth, e'.inOrder, e'.isReversed, Oriented(flip, edge))
         == Written(face, n, e.chunk, depth, e.inOrder, e.isReversed, edge)
  {
    WriteSameSlot(face, n, e.chunk, depth, e.inOrder, e.isReversed, n - 1 - depth, e'.inOrder, e'.isReversed, flip, edge);
  }

  /**
   * Slot j of the mirroring row, turned by 90 at the mirrored depth, holds
   * edge k' of this row (flipped when `flip`) when the entry before slot j
   * mirrors entry k'.
   */
  lemma MirroredTurnedEdge<T>(s: Cube<T>, n: nat, es: seq<Entry>, es': seq<Entry>, flip: bool, depth: nat, j: int, k': int)
    requires ValidCube(s, n) && depth < n && |es| == 4 && |es'| == 4 && 0 <= j < 4 && 0 <= k' < 4
    requires MirrorEntry(es[k'], es'[(j + 3) % 4], flip)
    ensures Turned(Edges(s, n, es', n - 1 - depth), 90)[j] == Oriented(flip, Edges(s, n, es, depth)[k'])
  {
    var i := (j + 3) % 4;
    TurnedAt(Edges(s, n, es', n - 1 - depth), 90, j, i);
    MirroredRead(s, n, es[k'], es'[i], flip, depth);
  }

  /** The face named by entry i holds, after the turn, edge i of the turned band written through entry i. */
  lemma TurnedWriteAt<T>(s: Cube<T>, n: nat, es: seq<Entry>, degrees: int, depth: nat, i: int, edge: seq<T>)
    requires ValidCube(s, n) && depth < n && IsRow(es) && 0 <= i < 4
    requires edge == Turned(Edges(s, n, es, depth), degrees)[i]
    ensures IsFace(s[es[i].face], n) && |edge| == n
    ensures BandTurned(s, n, es, degrees, depth)[es[i].face]
         == Written(s[es[i].face], n, es[i].chunk, depth, es[i].inOrder, es[i].isReversed, edge)
  {
    WriteEdgesAt(s, n, es, depth, Turned(Edges(s, n, es, depth), degrees), i);
  }

  /**
   * After a -90 turn, the face named by entry k holds edge k' = k + 1
   * (mod 4) of the old band written through entry k.
   */
  lemma BackTurnedFace<T>(s: Cube<T>, n: nat, es: seq<Entry>, depth: nat, k: int, k': int)
    requires ValidCube(s, n) && depth < n && IsRow(es) && 0 <= k < 4 && k' == (k + 1) % 4
    ensures IsFace(s[es[k].face], n) && |Edges(s, n, es, depth)[k']| == n
    ensures BandTurned(s, n, es, -90, depth)[es[k].face]
         == Written(s[es[k].face], n, es[k].chunk, depth, es[k].inOrder, es[k].isReversed, Edges(s, n, es, depth)[k'])
  {
    var band := Edges(s, n, es, depth);
    assert Turned(band, -90)[k] == band[k'] by {
      TurnedAt(band, -90, k, k');
    }
    TurnedWriteAt(s, n, es, -90, depth, k, Turned(band, -90)[k]);
  }

  /**
   * After a 90 turn of the mirroring row at the mirrored depth, the face
   * named by its entry j holds edge k' of this row (flipped when `flip`)
   * written through entry j.
   */
  lemma MirroredTurnedFace<T>(s: Cube<T>, n: nat, es: seq<Entry>, es': seq<Entry>, flip: bool, depth: nat, j: int, k': int)
    requires ValidCube(s, n) && depth < n && |es| == 4 && IsRow(es') && 0 <= j < 4 && 0 <= k' < 4
    requires MirrorEntry(es[k'], es'[(j + 3) % 4], flip)
    ensures IsFace(s[es'[j].face], n) && |Edges(s, n, es, depth)[k']| == n
    ensures BandTurned(s, n, es', 90, n - 1 - depth)[es'[j].face]
         == Written(s[es'[j].face], n, es'[j].chunk, n - 1 - depth, es'[j].inOrder, es'[j].isReversed,
                    Oriented(flip, Edges(s, n, es, depth)[k']))
  {
    assert Turned(Edges(s, n, es', n - 1 - depth), 90)[j] == Oriented(flip, Edges(s, n, es, depth)[k']) by {
      MirroredTurnedEdge(s, n, es, es', flip, depth, j, k');
    }
    TurnedWriteAt(s, n, es', 90, n - 1 - depth, j, Oriented(flip, Edges(s, n, es, depth)[k']));
  }

  /** Stepping one slot back in the mirroring row steps one slot on in this one. */
  lemma MirrorStep(shift: int, j: int, k: int)
    requires 0 <= j < 4 && k == (shift - j) % 4
    ensures (shift - (j + 3) % 4) % 4 == (k + 1) % 4
  {
    if j == 0 {
      assert shift - 3 == (shift + 1) - 4;
    }
  }

  /** The position map j -> (shift - j) mod 4 between mirrored rows is its own inverse. */
  lemma MirrorIndexInverse(shift: int, k: int, j: int)
    requires 0 <= k < 4 && j == (shift - k) % 4
    ensures 0 <= j < 4 && (shift - j) % 4 == k
  {
    var q := (shift - k) / 4;
    assert shift - j == k + 4 * q;
  }

  /**
   * The face named by entry j of the mirroring row (and by entry k of this
   * one) ends up the same after a 90 turn of the mirroring row at the
   * mirrored depth as after a -90 turn of this row.
   */
  lemma MirroredFaceAgrees<T>(s: Cube<T>, n: nat, es: seq<Entry>, es': seq<Entry>, shift: int, flip: bool, depth: nat, j: int, k: int)
    requires ValidCube(s, n) && depth < n && IsRow(es) && IsRow(es') && MirrorRows(es, es', shift, flip)
    requires 0 <= j < 4 && k == (shift - j) % 4
    ensures 0 <= k < 4 && es'[j].face == es[k].face
    ensures BandTurned(s, n, es', 90, n - 1 - depth)[es[k].face] == BandTurned(s, n, es, -90, depth)[es[k].face]
  {
    var i := (j + 3) % 4;
    var k' := (k + 1) % 4;
    assert MirrorEntry(es[k], es'[j], flip);
    assert k' == (shift - i) % 4 by {
      MirrorStep(shift, j, k);
    }
    assert MirrorEntry(es[k'], es'[i], flip);
    BackTurnedFace(s, n, es, depth, k, k');
    MirroredTurnedFace(s, n, es, es', flip, depth, j, k');
    MirroredWrite(s[es[k].face], n, es[k], es'[j], flip, depth, Edges(s, n, es, depth)[k']);
  }

  /** A face that this row does not name is not named by the mirroring row either, and both turns keep it. */
  lemma MirroredKeep<T>(s: Cube<T>, n: nat, es: seq<Entry>, es': seq<Entry>, shift: int, flip: bool, depth: nat, g: FaceId)
    requires ValidCube(s, n) && depth < n && MirrorRows(es, es', shift, flip) && g !in FacesOf(es)
    ensures BandTurned(s, n, es', 90, n - 1 - depth)[g] == s[g]
    ensures BandTurned(s, n, es, -90, depth)[g] == s[g]
  {
    MirrorRowsNameSameFaces(es, es', shift, flip, g);
    TurnBandKeeps(s, n, es', 90, n - 1 - depth, g);
    TurnBandKeeps(s, n, es, -90, depth, g);
  }

  /**
   * Mirrored rows address the same cells from the other side: turning the
   * mirroring row by 90 at depth n-1-d is turning this row by -90 at depth d.
   */
  lemma MirroredTurnsAgree<T>(s: Cube<T>, n: nat, es: seq<Entry>, es': seq<Entry>, shift: int, flip: bool, depth: nat)
    requires ValidCube(s, n) && depth < n && IsRow(es) && IsRow(es') && MirrorRows(es, es', shift, flip)
    ensures BandTurned(s, n, es', 90, n - 1 - depth) == BandTurned(s, n, es, -90, depth)
  {
    var lhs := BandTurned(s, n, es', 90, n - 1 - depth);
    var rhs := BandTurned(s, n, es, -90, depth);
    forall g
      ensures lhs[g] == rhs[g]
    {
      if k :| 0 <= k < 4 && es[k].face == g {
        var j := (shift - k) % 4;
        MirrorIndexInverse(shift, k, j);
        MirroredFaceAgrees(s, n, es, es', shift, flip, depth, j, k);
      } else {
        MirroredKeep(s, n, es, es', shift, flip, depth, g);
      }
    }
    CubeExt(lhs, rhs);
  }

  /**
   * Opposite bands address the same cells from the other side: turning the
   * band of Opposite(x) by 90 at depth n-1-d is turning the band of x by -90
   * at depth d.
   */
  lemma OppositeBandsAgree<T>(s: Cube<T>, n: nat, x: FaceId, depth: nat)
    requires ValidCube(s, n) && depth < n
    ensures BandTurned(s, n, Band(Opposite(x)), 90, n - 1 - depth) == BandTurned(s, n, Band(x), -90, depth)
  {
    BandIsRow(x);
    BandIsRow(Opposite(x));
    OppositeBandMirrors(x);
    MirroredTurnsAgree(s, n, Band(x), Band(Opposite(x)), MirrorShift(x), Flips(x), depth);
  }
}
