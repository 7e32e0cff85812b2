/**
 * Whole-cube rotations of src/cube.js (`rotateX`, `rotateY`, `rotateZ`).
 *
 * Each rotation relabels the six faces and re-orients some of them, either
 * with a face turn or with `.reverse()`, which on a flat face is a half turn.
 * Any degree value other than 90 and -90 falls through to the 180 case.
 */
module Rotations {
  import opened BandMap
  import opened Faces
  import opened CubeState

  /** `rotateX`: the cube turns about the L-R axis, front going up. */
  function RotateX<T>(s: Cube<T>, n: nat, degrees: int): (r: Cube<T>)
    requires ValidCube(s, n)
    ensures ValidCube(r, n)
  {
    if degrees == 90 then
      CubeOf(s[F], TurnFace(s[L], n, -90), s[D], TurnFace(s[R], n, 90), Reverse(s[U]), Reverse(s[B]))
    else if degrees == -90 then
      CubeOf(Reverse(s[B]), TurnFace(s[L], n, 90), s[U], TurnFace(s[R], n, -90), Reverse(s[D]), s[F])
    else
      CubeOf(s[D], Reverse(s[L]), Reverse(s[B]), Reverse(s[R]), Reverse(s[F]), s[U])
  }

  /** `rotateY`: the cube turns about the U-D axis, right coming to the front. */
  function RotateY<T>(s: Cube<T>, n: nat, degrees: int): (r: Cube<T>)
    requires ValidCube(s, n)
    ensures ValidCube(r, n)
  {
    if degrees == 90 then
      CubeOf(TurnFace(s[U], n, 90), s[F], s[R], s[B], s[L], TurnFace(s[D], n, -90))
    else if degrees == -90 then
      CubeOf(TurnFace(s[U], n, -90), s[B], s[L], s[F], s[R], TurnFace(s[D], n, 90))
    else
      CubeOf(Reverse(s[U]), s[R], s[B], s[L], s[F], Reverse(s[D]))
  }

  /**
   * `rotateZ` as written: the cube turns about the F-B axis, left going up.
   * The -90 branch moves the faces along the same cycle as the 90 branch
   * (U from L, L from D, R from U, D from R) and only turns each face the
   * other way.
   */
  function RotateZ<T>(s: Cube<T>, n: nat, degrees: int): (r: Cube<T>)
    requires ValidCube(s, n)
    ensures ValidCube(r, n)
  {
    if degrees == 90 then
      CubeOf(TurnFace(s[L], n, 90), TurnFace(s[D], n, 90), TurnFace(s[F], n, 90),
             TurnFace(s[U], n, 90), TurnFace(s[B], n, -90), TurnFace(s[R], n, 90))
    else if degrees == -90 then
      CubeOf(TurnFace(s[L], n, -90), TurnFace(s[D], n, -90), TurnFace(s[F], n, -90),
             TurnFace(s[U], n, -90), TurnFace(s[B], n, 90), TurnFace(s[R], n, -90))
    else
      CubeOf(Reverse(s[D]), Reverse(s[R]), Reverse(s[F]), Reverse(s[L]), Reverse(s[B]), Reverse(s[U]))
  }

  /**
   * `rotateZ` with the -90 branch moving the faces along the reverse cycle
   * (U from R, L from U, R from D, D from L); the 90 and 180 branches are
   * those of RotateZ.
   */
  function RotateZCorrected<T>(s: Cube<T>, n: nat, degrees: int): (r: Cube<T>)
    requires ValidCube(s, n)
    ensures ValidCube(r, n)
    ensures degrees != -90 ==> r == RotateZ(s, n, degrees)
  {
    if degrees == -90 then
      CubeOf(TurnFace(s[R], n, -90), TurnFace(s[U], n, -90), TurnFace(s[F], n, -90),
             TurnFace(s[D], n, -90), TurnFace(s[B], n, 90), TurnFace(s[L], n, -90))
    else
      RotateZ(s, n, degrees)
  }

  // ---------------------------------------------------------------------
  // X axis

  /** Rotating a quarter about X and a quarter back restores the cube, in either order. */
  lemma RotateXQuarterInverse<T>(s: Cube<T>, n: nat)
    requires ValidCube(s, n)
    ensures RotateX(RotateX(s, n, 90), n, -90) == s
    ensures RotateX(RotateX(s, n, -90), n, 90) == s
  {
    TurnFaceQuarterInverse(s[L], n);
    TurnFaceQuarterInverse(s[R], n);
    ReverseInvolution(s[U]);
    ReverseInvolution(s[B]);
    ReverseInvolution(s[D]);
    SameFaces(RotateX(RotateX(s, n, 90), n, -90), s, n);
    SameFaces(RotateX(RotateX(s, n, -90), n, 90), s, n);
  }

  /** Two quarter rotations about X the same way are the half rotation. */
  lemma RotateXTwoQuarters<T>(s: Cube<T>, n: nat)
    requires ValidCube(s, n)
    ensures RotateX(RotateX(s, n, 90), n, 90) == RotateX(s, n, 180)
    ensures RotateX(RotateX(s, n, -90), n, -90) == RotateX(s, n, 180)
  {
    TurnFaceTwoQuarters(s[L], n);
    TurnFaceTwoQuarters(s[R], n);
    ReverseInvolution(s[U]);
    ReverseInvolution(s[D]);
    SameFaces(RotateX(RotateX(s, n, 90), n, 90), RotateX(s, n, 180), n);
    SameFaces(RotateX(RotateX(s, n, -90), n, -90), RotateX(s, n, 180), n);
  }

  /** The half rotation about X undoes itself. */
  lemma RotateXHalfInvolution<T>(s: Cube<T>, n: nat)
    requires ValidCube(s, n)
    ensures RotateX(RotateX(s, n, 180), n, 180) == s
  {
    ReverseInvolution(s[L]);
    ReverseInvolution(s[R]);
    ReverseInvolution(s[F]);
    ReverseInvolution(s[B]);
    SameFaces(RotateX(RotateX(s, n, 180), n, 180), s, n);
  }

  // ---------------------------------------------------------------------
  // Y axis

  /** Rotating a quarter about Y and a quarter back restores the cube, in either order. */
  lemma RotateYQuarterInverse<T>(s: Cube<T>, n: nat)
    requires ValidCube(s, n)
    ensures RotateY(RotateY(s, n, 90), n, -90) == s
    ensures RotateY(RotateY(s, n, -90), n, 90) == s
  {
    TurnFaceQuarterInverse(s[U], n);
    TurnFaceQuarterInverse(s[D], n);
    SameFaces(RotateY(RotateY(s, n, 90), n, -90), s, n);
    SameFaces(RotateY(RotateY(s, n, -90), n, 90), s, n);
  }

  /** Two quarter rotations about Y the same way are the half rotation. */
  lemma RotateYTwoQuarters<T>(s: Cube<T>, n: nat)
    requires ValidCube(s, n)
    ensures RotateY(RotateY(s, n, 90), n, 90) == RotateY(s, n, 180)
    ensures RotateY(RotateY(s, n, -90), n, -90) == RotateY(s, n, 180)
  {
    TurnFaceTwoQuarters(s[U], n);
    TurnFaceTwoQuarters(s[D], n);
    SameFaces(RotateY(RotateY(s, n, 90), n, 90), RotateY(s, n, 180), n);
    SameFaces(RotateY(RotateY(s, n, -90), n, -90), RotateY(s, n, 180), n);
  }

  /** The half rotation about Y undoes itself. */
  lemma RotateYHalfInvolution<T>(s: Cube<T>, n: nat)
    requires ValidCube(s, n)
    ensures RotateY(RotateY(s, n, 180), n, 180) == s
  {
    ReverseInvolution(s[U]);
    ReverseInvolution(s[D]);
    SameFaces(RotateY(RotateY(s, n, 180), n, 180), s, n);
  }

  // ---------------------------------------------------------------------
  // Z axis

  /** Two quarter rotations about Z the same way are the half rotation, for 90 and for -90. */
  lemma RotateZTwoQuarters<T>(s: Cube<T>, n: nat)
    requires ValidCube(s, n)
    ensures RotateZ(RotateZ(s, n, 90), n, 90) == RotateZ(s, n, 180)
    ensures RotateZ(RotateZ(s, n, -90), n, -90) == RotateZ(s, n, 180)
  {
    TurnFaceTwoQuarters(s[U], n);
    TurnFaceTwoQuarters(s[L], n);
    TurnFaceTwoQuarters(s[F], n);
    TurnFaceTwoQuarters(s[R], n);
    TurnFaceTwoQuarters(s[B], n);
    TurnFaceTwoQuarters(s[D], n);
    SameFaces(RotateZ(RotateZ(s, n, 90), n, 90), RotateZ(s, n, 180), n);
    SameFaces(RotateZ(RotateZ(s, n, -90), n, -90), RotateZ(s, n, 180), n);
  }

  /** The half rotation about Z undoes itself. */
  lemma RotateZHalfInvolution<T>(s: Cube<T>, n: nat)
    requires ValidCube(s, n)
    ensures RotateZ(RotateZ(s, n, 180), n, 180) == s
  {
    var once := RotateZ(s, n, 180);
    var twice := RotateZ(once, n, 180);
    assert twice[U] == Reverse(Reverse(s[U])) && twice[L] == Reverse(Reverse(s[L])) && twice[F] == Reverse(Reverse(s[F]));
    assert twice[R] == Reverse(Reverse(s[R])) && twice[B] == Reverse(Reverse(s[B])) && twice[D] == Reverse(Reverse(s[D]));
    ReverseInvolution(s[U]);
    ReverseInvolution(s[L]);
    ReverseInvolution(s[F]);
    ReverseInvolution(s[R]);
    ReverseInvolution(s[B]);
    ReverseInvolution(s[D]);
    SameFaces(twice, s, n);
  }

  /** Four quarter rotations about Z the same way restore the cube, for 90 and for -90. */
  lemma RotateZFourQuarters<T>(s: Cube<T>, n: nat)
    requires ValidCube(s, n)
    ensures RotateZ(RotateZ(RotateZ(RotateZ(s, n, 90), n, 90), n, 90), n, 90) == s
    ensures RotateZ(RotateZ(RotateZ(RotateZ(s, n, -90), n, -90), n, -90), n, -90) == s
  {
    RotateZTwoQuarters(s, n);
    RotateZTwoQuarters(RotateZ(RotateZ(s, n, 90), n, 90), n);
    RotateZTwoQuarters(RotateZ(RotateZ(s, n, -90), n, -90), n);
    RotateZHalfInvolution(s, n);
  }

  /**
   * As written, a quarter rotation about Z followed by the -90 rotation does
   * not restore the cube: the result's up face is the old down face.
   */
  lemma RotateZQuarterTurnsDoNotCancel<T>(s: Cube<T>, n: nat)
    requires ValidCube(s, n) && s[U] != s[D]
    ensures RotateZ(RotateZ(s, n, 90), n, -90)[U] == s[D]
    ensures RotateZ(RotateZ(s, n, 90), n, -90) != s
  {
    TurnFaceQuarterInverse(s[D], n);
  }

  /** With the corrected -90 branch, 90 and -90 about Z undo each other, in either order. */
  lemma RotateZCorrectedQuarterInverse<T>(s: Cube<T>, n: nat)
    requires ValidCube(s, n)
    ensures RotateZCorrected(RotateZCorrected(s, n, 90), n, -90) == s
    ensures RotateZCorrected(RotateZCorrected(s, n, -90), n, 90) == s
  {
    TurnFaceQuarterInverse(s[U], n);
    TurnFaceQuarterInverse(s[L], n);
    TurnFaceQuarterInverse(s[F], n);
    TurnFaceQuarterInverse(s[R], n);
    TurnFaceQuarterInverse(s[B], n);
    TurnFaceQuarterInverse(s[D], n);
    SameFaces(RotateZCorrected(RotateZCorrected(s, n, 90), n, -90), s, n);
    SameFaces(RotateZCorrected(RotateZCorrected(s, n, -90), n, 90), s, n);
  }

  /** With the corrected -90 branch, two -90 rotations about Z are still the half rotation. */
  lemma RotateZCorrectedTwoQuarters<T>(s: Cube<T>, n: nat)
    requires ValidCube(s, n)
    ensures RotateZCorrected(RotateZCorrected(s, n, -90), n, -90) == RotateZCorrected(s, n, 180)
  {
    TurnFaceTwoQuarters(s[U], n);
    TurnFaceTwoQuarters(s[L], n);
    TurnFaceTwoQuarters(s[F], n);
    TurnFaceTwoQuarters(s[R], n);
    TurnFaceTwoQuarters(s[B], n);
    TurnFaceTwoQuarters(s[D], n);
    SameFaces(RotateZCorrected(RotateZCorrected(s, n, -90), n, -90), RotateZCorrected(s, n, 180), n);
  }

  /** Any degree other than 90 and -90 rotates like 180, on every axis. */
  lemma RotateFallback<T>(s: Cube<T>, n: nat, degrees: int)
    requires ValidCube(s, n) && degrees != 90 && degrees != -90
    ensures RotateX(s, n, degrees) == RotateX(s, n, 180)
    ensures RotateY(s, n, degrees) == RotateY(s, n, 180)
    ensures RotateZ(s, n, degrees) == RotateZ(s, n, 180)
  {
    SameFaces(RotateX(s, n, degrees), RotateX(s, n, 180), n);
    SameFaces(RotateY(s, n, degrees), RotateY(s, n, 180), n);
    SameFaces(RotateZ(s, n, degrees), RotateZ(s, n, 180), n);
  }
}
