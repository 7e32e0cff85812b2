/**
 * The cube state of src/cube.js: an object holding one flat face under each
 * of the six face letters, modelled as a map from face to face contents.
 */
module CubeState {
  import opened BandMap
  import opened Faces

  /** `data`: the face letters mapped to their flat faces. */
  type Cube<T> = map<FaceId, seq<T>>

  /** All six faces are present and n-by-n, for some n >= 1. */
  predicate ValidCube<T>(s: Cube<T>, n: nat)
  {
    n > 0 && forall g :: g in s && IsFace(s[g], n)
  }

  /** The object literal `{U: up, L: left, F: front, R: right, B: back, D: down}`. */
  function CubeOf<T>(up: seq<T>, left: seq<T>, front: seq<T>, right: seq<T>, back: seq<T>, down: seq<T>): (c: Cube<T>)
    ensures forall g :: g in c
    ensures c[U] == up && c[L] == left && c[F] == front && c[R] == right && c[B] == back && c[D] == down
    ensures forall n: nat | n > 0 && IsFace(up, n) && IsFace(left, n) && IsFace(front, n) &&
                            IsFace(right, n) && IsFace(back, n) && IsFace(down, n) :: ValidCube(c, n)
  {
    var c := map[U := up, L := left, F := front, R := right, B := back, D := down];
    AllLettersIn(c);
    c
  }

  /** A map holding the six face letters holds every face letter. */
  lemma AllLettersIn<T>(c: Cube<T>)
    requires U in c && L in c && F in c && R in c && B in c && D in c
    ensures forall g :: g in c
  {
    forall g
      ensures g in c
    {
      match g
      case U => case L => case F => case R => case B => case D =>
    }
  }

  /** A valid cube stays valid when one face is replaced by another n-by-n face. */
  lemma ValidCubeSet<T>(s: Cube<T>, n: nat, g: FaceId, v: seq<T>)
    requires ValidCube(s, n) && IsFace(v, n)
    ensures ValidCube(s[g := v], n)
  {
  }

  /** Two states holding the same six faces are equal. */
  lemma CubeExt<T>(a: Cube<T>, b: Cube<T>)
    requires forall g :: g in a && g in b && a[g] == b[g]
    ensures a == b
  {
    assert a.Keys == b.Keys;
  }

  /** Two valid states are equal when their six faces are, face letter by face letter. */
  lemma SameFaces<T>(a: Cube<T>, b: Cube<T>, n: nat)
    requires ValidCube(a, n) && ValidCube(b, n)
    requires a[U] == b[U] && a[L] == b[L] && a[F] == b[F] && a[R] == b[R] && a[B] == b[B] && a[D] == b[D]
    ensures a == b
  {
    forall g
      ensures g in a && g in b && a[g] == b[g]
    {
      match g
      case U => case L => case F => case R => case B => case D =>
    }
    CubeExt(a, b);
  }
}
