/**
  Replication and reflection of mesh fragments: Copy_Faces, SpinDup,
  Mirror_Verts_Faces, and the offset-based append every assembler uses.
 */
module MeshOps {
  import opened Geometry

  /** One face with every index shifted by `offset`. */
  function ShiftFace(f: Face, offset: int): (r: Face)
    ensures |r| == |f|
    ensures forall k :: 0 <= k < |f| ==> r[k] - f[k] == offset
  {
    seq(|f|, k requires 0 <= k < |f| => f[k] + offset)
  }

  /** Copy_Faces: the face list with every index incremented by `offset`; face shapes are kept. */
  function CopyFaces(faces: seq<Face>, offset: int): (r: seq<Face>)
    ensures |r| == |faces|
    ensures forall j :: 0 <= j < |faces| ==> r[j] == ShiftFace(faces[j], offset)
  {
    seq(|faces|, j requires 0 <= j < |faces| => ShiftFace(faces[j], offset))
  }

  /** Shifting moves the index window along with the faces. */
  lemma CopyFacesBounds(faces: seq<Face>, offset: int, lo: int, hi: int)
    requires FacesIn(faces, lo, hi)
    ensures FacesIn(CopyFaces(faces, offset), lo + offset, hi + offset)
  {
    var r := CopyFaces(faces, offset);
    forall j | 0 <= j < |r|
      ensures IndicesIn(r[j], lo + offset, hi + offset)
    {
      assert IndicesIn(faces[j], lo, hi);
    }
  }

  /** Two shifts compose into one. */
  lemma CopyFacesCompose(faces: seq<Face>, a: int, b: int)
    ensures CopyFaces(CopyFaces(faces, a), b) == CopyFaces(faces, a + b)
  {
    var l := CopyFaces(CopyFaces(faces, a), b);
    var r := CopyFaces(faces, a + b);
    forall j | 0 <= j < |faces|
      ensures l[j] == r[j]
    {
      assert ShiftFace(ShiftFace(faces[j], a), b) == ShiftFace(faces[j], a + b);
    }
  }

  /** A shift by zero is the identity. */
  lemma CopyFacesZero(faces: seq<Face>)
    ensures CopyFaces(faces, 0) == faces
  {
    var r := CopyFaces(faces, 0);
    forall j | 0 <= j < |faces|
      ensures r[j] == faces[j]
    {
      assert ShiftFace(faces[j], 0) == faces[j];
    }
  }

  /** Shifting keeps every face well shaped. */
  lemma CopyFacesShaped(faces: seq<Face>, offset: int)
    ensures AllShaped(faces) ==> AllShaped(CopyFaces(faces, offset))
  {
    if AllShaped(faces) {
      forall j | 0 <= j < |faces|
        ensures WellShaped(CopyFaces(faces, offset)[j])
      {
        assert WellShaped(faces[j]);
      }
    }
  }

  /** Shifting commutes with winding reversal. */
  lemma ShiftReverse(f: Face, offset: int)
    ensures ShiftFace(Reverse(f), offset) == Reverse(ShiftFace(f, offset))
  {
  }

  /** Append a fragment to an accumulated mesh, re-offsetting its faces by the running vertex count. */
  function Append(acc: Fragment, part: Fragment): (r: Fragment)
    ensures |r.verts| == |acc.verts| + |part.verts|
    ensures |r.faces| == |acc.faces| + |part.faces|
    ensures r.verts[..|acc.verts|] == acc.verts && r.faces[..|acc.faces|] == acc.faces
    ensures ValidMesh(acc) && ValidMesh(part) ==> ValidMesh(r)
    ensures AllShaped(acc.faces) && AllShaped(part.faces) ==> AllShaped(r.faces)
  {
    var shifted := CopyFaces(part.faces, |acc.verts|);
    CopyFacesShaped(part.faces, |acc.verts|);
    var r := Fragment(acc.verts + part.verts, acc.faces + shifted);
    assert ValidMesh(acc) && ValidMesh(part) ==> ValidMesh(r) by {
      if ValidMesh(acc) && ValidMesh(part) {
        CopyFacesBounds(part.faces, |acc.verts|, 0, |part.verts|);
        FacesInWiden(acc.faces, 0, |acc.verts|, 0, |r.verts|);
        FacesInConcat(acc.faces, shifted, 0, |r.verts|);
      }
    }
    r
  }

  // ---------------------------------------------------------------------------
  // SpinDup
  // ---------------------------------------------------------------------------

  /** Rot_Mesh: every vertex rotated by `angle` degrees. */
  function RotMesh(verts: seq<Vertex>, angle: real, rotate: (Vertex, real) -> Vertex): (r: seq<Vertex>)
    ensures |r| == |verts|
    ensures forall j :: 0 <= j < |verts| ==> r[j] == rotate(verts[j], angle)
  {
    seq(|verts|, j requires 0 <= j < |verts| => rotate(verts[j], angle))
  }

  /** The number of copies SpinDup makes: a division count of zero is treated as one. */
  function SpinCount(divisions: int): (n: nat)
    ensures divisions == 0 ==> n == 1
    ensures divisions != 0 ==> n == Count(divisions)
  {
    Count(if divisions == 0 then 1 else divisions)
  }

  /** The rotation angle of copy `k`. */
  function CopyAngle(step: real, k: int): real {
    step * (k as real)
  }

  /** The first `n` copies of the base fragment, copy `k` rotated by `k * step`. */
  function SpinCopies(verts: seq<Vertex>, faces: seq<Face>, step: real, n: nat,
                      rotate: (Vertex, real) -> Vertex): (r: Fragment)
    ensures |r.verts| == n * |verts|
    ensures |r.faces| == n * |faces|
    ensures FacesIn(faces, 0, |verts|) ==> FacesIn(r.faces, 0, n * |verts|)
    ensures AllShaped(faces) ==> AllShaped(r.faces)
    decreases n
  {
    if n == 0 then Fragment([], [])
    else
      var prev := SpinCopies(verts, faces, step, n - 1, rotate);
      var copy := CopyFaces(faces, |prev.verts|);
      CopyFacesShaped(faces, |prev.verts|);
      assert (n - 1) * |verts| + |verts| == n * |verts|;
      assert (n - 1) * |faces| + |faces| == n * |faces|;
      assert FacesIn(faces, 0, |verts|) ==> FacesIn(prev.faces + copy, 0, n * |verts|) by {
        if FacesIn(faces, 0, |verts|) {
          CopyFacesBounds(faces, |prev.verts|, 0, |verts|);
          FacesInWiden(prev.faces, 0, (n - 1) * |verts|, 0, n * |verts|);
        }
      }
      Fragment(prev.verts + RotMesh(verts, CopyAngle(step, n - 1), rotate), prev.faces + copy)
  }

  /**
    SpinDup: replicate the base fragment `divisions` times about the axis,
    stepping the angle by degree / divisions. The last copy is not stitched
    back to the first; callers close that seam themselves.
   */
  function SpinDup(verts: seq<Vertex>, faces: seq<Face>, degree: real, divisions: int,
                   rotate: (Vertex, real) -> Vertex): (r: Fragment)
    ensures |r.verts| == SpinCount(divisions) * |verts|
    ensures |r.faces| == SpinCount(divisions) * |faces|
    ensures FacesIn(faces, 0, |verts|) ==> ValidMesh(r)
    ensures AllShaped(faces) ==> AllShaped(r.faces)
  {
    var d := if divisions == 0 then 1 else divisions;
    SpinCopies(verts, faces, degree / (d as real), Count(d), rotate)
  }

  /** Copy `k` of a spin holds the base vertices rotated by `k * step`. */
  lemma {:induction false} SpinCopyVerts(verts: seq<Vertex>, faces: seq<Face>, step: real, n: nat,
                                         rotate: (Vertex, real) -> Vertex, k: nat)
    requires k < n
    ensures var r := SpinCopies(verts, faces, step, n, rotate);
      k * |verts| + |verts| <= |r.verts|
      && r.verts[k * |verts| .. k * |verts| + |verts|] == RotMesh(verts, CopyAngle(step, k), rotate)
    decreases n
  {
    var V := |verts|;
    var prev := SpinCopies(verts, faces, step, n - 1, rotate).verts;
    var last := RotMesh(verts, CopyAngle(step, n - 1), rotate);
    assert SpinCopies(verts, faces, step, n, rotate).verts == prev + last;
    var b := k * V;
    if k == n - 1 {
      assert b == |prev| && |last| == V;
      SliceOfTail(prev, last);
    } else {
      SpinCopyVerts(verts, faces, step, n - 1, rotate, k);
      SliceOfHead(prev, last, b, b + V);
    }
  }

  /** Vertex `i` of copy `k` of a spin, at flat index `idx`, is base vertex `i` rotated by `k * step`. */
  lemma SpinCopyVertAt(verts: seq<Vertex>, faces: seq<Face>, step: real, n: nat,
                       rotate: (Vertex, real) -> Vertex, k: nat, i: nat, idx: nat)
    requires k < n && i < |verts| && idx == k * |verts| + i
    ensures idx < |SpinCopies(verts, faces, step, n, rotate).verts|
    ensures SpinCopies(verts, faces, step, n, rotate).verts[idx] == rotate(verts[i], CopyAngle(step, k))
  {
    var r := SpinCopies(verts, faces, step, n, rotate).verts;
    var b := k * |verts|;
    SpinCopyVerts(verts, faces, step, n, rotate, k);
    var copy := r[b..b + |verts|];
    assert copy[i] == r[idx];
  }

  /** SpinDup's copy `k` holds base vertex `i` at flat index `idx`, rotated by `k` steps of degree / divisions. */
  lemma SpinDupVertAt(verts: seq<Vertex>, faces: seq<Face>, degree: real, divisions: int,
                      rotate: (Vertex, real) -> Vertex, k: nat, i: nat, idx: nat)
    requires 0 < divisions && k < divisions && i < |verts| && idx == k * |verts| + i
    ensures idx < |SpinDup(verts, faces, degree, divisions, rotate).verts|
    ensures SpinDup(verts, faces, degree, divisions, rotate).verts[idx]
      == rotate(verts[i], CopyAngle(degree / (divisions as real), k))
  {
    SpinCopyVertAt(verts, faces, degree / (divisions as real), divisions, rotate, k, i, idx);
  }

  /** Copy `k` of a spin holds the base faces shifted by `k * |verts|`. */
  lemma {:induction false} SpinCopyFaces(verts: seq<Vertex>, faces: seq<Face>, step: real, n: nat,
                                         rotate: (Vertex, real) -> Vertex, k: nat)
    requires k < n
    ensures var r := SpinCopies(verts, faces, step, n, rotate);
      k * |faces| + |faces| <= |r.faces|
      && r.faces[k * |faces| .. k * |faces| + |faces|] == CopyFaces(faces, k * |verts|)
    decreases n
  {
    var V, F := |verts|, |faces|;
    var sp := SpinCopies(verts, faces, step, n - 1, rotate);
    var prev := sp.faces;
    var last := CopyFaces(faces, |sp.verts|);
    var r := SpinCopies(verts, faces, step, n, rotate).faces;
    assert r == prev + last;
    var b := k * F;
    MulMono(k, n - 1, F);
    if k == n - 1 {
      assert |sp.verts| == k * V;
      SliceOfTail(prev, last);
    } else {
      SpinCopyFaces(verts, faces, step, n - 1, rotate, k);
      MulMono(k + 1, n - 1, F);
      SliceOfHead(prev, last, b, b + F);
    }
  }

  lemma SliceOfTail<T>(a: seq<T>, b: seq<T>)
    ensures (a + b)[|a| .. |a| + |b|] == b
  {
  }

  lemma SliceOfHead<T>(a: seq<T>, b: seq<T>, i: int, j: int)
    requires 0 <= i <= j <= |a|
    ensures (a + b)[i .. j] == a[i .. j]
  {
  }

  lemma MulMono(a: nat, b: nat, c: nat)
    requires a <= b
    ensures a * c <= b * c
    ensures a * c + c == (a + 1) * c
  {
  }

  // ---------------------------------------------------------------------------
  // Mirror_Verts_Faces
  // ---------------------------------------------------------------------------

  /** The axis names Mirror_Verts_Faces understands. */
  predicate KnownAxis(axis: string) {
    axis == "x" || axis == "y" || axis == "z"
  }

  /** One vertex reflected as the source does it: 'y' reflects x, 'x' reflects y, 'z' reflects z. */
  function MirrorVertex(v: Vertex, axis: string, flipPoint: real): Vertex
    requires KnownAxis(axis)
  {
    if axis == "y" then
      var delta := v.x - flipPoint; Vertex(flipPoint - delta, v.y, v.z)
    else if axis == "x" then
      var delta := v.y - flipPoint; Vertex(v.x, flipPoint - delta, v.z)
    else
      var delta := v.z - flipPoint; Vertex(v.x, v.y, flipPoint - delta)
  }

  /**
    Mirror_Verts_Faces: the reflected vertices (none for an unknown axis) and
    the faces shifted past the originals with their winding reversed.
   */
  function MirrorVertsFaces(verts: seq<Vertex>, faces: seq<Face>, axis: string, flipPoint: real): (r: Fragment)
    ensures |r.verts| == (if KnownAxis(axis) then |verts| else 0)
    ensures |r.faces| == |faces|
    ensures forall i {:trigger r.verts[i]} :: 0 <= i < |r.verts| ==>
      (axis == "y" ==> r.verts[i] == Vertex(2.0 * flipPoint - verts[i].x, verts[i].y, verts[i].z)) &&
      (axis == "x" ==> r.verts[i] == Vertex(verts[i].x, 2.0 * flipPoint - verts[i].y, verts[i].z)) &&
      (axis == "z" ==> r.verts[i] == Vertex(verts[i].x, verts[i].y, 2.0 * flipPoint - verts[i].z))
    ensures forall j {:trigger r.faces[j]} :: 0 <= j < |faces| ==>
      |r.faces[j]| == |faces[j]| &&
      forall k :: 0 <= k < |faces[j]| ==> r.faces[j][k] == faces[j][|faces[j]| - 1 - k] + |verts|
  {
    var mv := if KnownAxis(axis)
      then seq(|verts|, i requires 0 <= i < |verts| => MirrorVertex(verts[i], axis, flipPoint))
      else [];
    var mf := seq(|faces|, j requires 0 <= j < |faces| => Reverse(ShiftFace(faces[j], |verts|)));
    Fragment(mv, mf)
  }

  /** Reflecting twice about the same plane restores every vertex exactly. */
  lemma MirrorTwiceRestoresVerts(verts: seq<Vertex>, axis: string, flipPoint: real)
    requires KnownAxis(axis)
    ensures MirrorVertsFaces(MirrorVertsFaces(verts, [], axis, flipPoint).verts, [], axis, flipPoint).verts == verts
  {
    var once := MirrorVertsFaces(verts, [], axis, flipPoint).verts;
    var twice := MirrorVertsFaces(once, [], axis, flipPoint).verts;
    assert |twice| == |verts|;
    forall i | 0 <= i < |verts|
      ensures twice[i] == verts[i]
    {
    }
  }

  /** Mirroring the faces twice restores the original winding, shifted by two vertex blocks. */
  lemma MirrorTwiceRestoresWinding(verts: seq<Vertex>, faces: seq<Face>, axis: string, flipPoint: real)
    requires KnownAxis(axis)
    ensures var once := MirrorVertsFaces(verts, faces, axis, flipPoint);
      MirrorVertsFaces(once.verts, once.faces, axis, flipPoint).faces == CopyFaces(faces, 2 * |verts|)
  {
    var once := MirrorVertsFaces(verts, faces, axis, flipPoint);
    var twice := MirrorVertsFaces(once.verts, once.faces, axis, flipPoint).faces;
    var shifted := CopyFaces(faces, 2 * |verts|);
    forall j | 0 <= j < |faces|
      ensures twice[j] == shifted[j]
    {
      var f := faces[j];
      assert |twice[j]| == |f|;
      forall k | 0 <= k < |f|
        ensures twice[j][k] == shifted[j][k]
      {
        assert twice[j][k] == once.faces[j][|f| - 1 - k] + |verts|;
        assert once.faces[j][|f| - 1 - k] == f[k] + |verts|;
      }
    }
  }

  /** The mirrored faces keep their shape and index the mirrored block of vertices. */
  lemma MirrorFacesShape(verts: seq<Vertex>, faces: seq<Face>, axis: string, flipPoint: real)
    ensures var mf := MirrorVertsFaces(verts, faces, axis, flipPoint).faces;
      (FacesIn(faces, 0, |verts|) ==> FacesIn(mf, |verts|, 2 * |verts|))
      && (AllShaped(faces) ==> AllShaped(mf))
  {
    var mf := MirrorVertsFaces(verts, faces, axis, flipPoint).faces;
    forall j | 0 <= j < |faces|
      ensures IndicesIn(faces[j], 0, |verts|) ==> IndicesIn(mf[j], |verts|, 2 * |verts|)
      ensures WellShaped(faces[j]) ==> WellShaped(mf[j])
    {
      assert mf[j] == Reverse(ShiftFace(faces[j], |verts|));
    }
  }

  /** The mirrored copy appended after the original, as every caller uses it. */
  function MirrorAppend(m: Fragment, axis: string, flipPoint: real): (r: Fragment)
    requires KnownAxis(axis)
    ensures |r.verts| == 2 * |m.verts|
    ensures |r.faces| == 2 * |m.faces|
    ensures ValidMesh(m) ==> ValidMesh(r)
    ensures AllShaped(m.faces) ==> AllShaped(r.faces)
  {
    var mirrored := MirrorVertsFaces(m.verts, m.faces, axis, flipPoint);
    var r := Fragment(m.verts + mirrored.verts, m.faces + mirrored.faces);
    MirrorFacesShape(m.verts, m.faces, axis, flipPoint);
    assert ValidMesh(m) ==> ValidMesh(r) by {
      if ValidMesh(m) {
        FacesInWiden(m.faces, 0, |m.verts|, 0, |r.verts|);
        FacesInWiden(mirrored.faces, |m.verts|, 2 * |m.verts|, 0, |r.verts|);
        FacesInConcat(m.faces, mirrored.faces, 0, |r.verts|);
      }
    }
    assert AllShaped(m.faces) ==> AllShaped(r.faces) by {
      if AllShaped(m.faces) {
        AllShapedConcat(m.faces, mirrored.faces);
      }
    }
    r
  }

  /**
    Vertex `i` of the original is kept in place, and its reflection sits
    `|m.verts|` places further on.
   */
  lemma MirrorAppendVertAt(m: Fragment, axis: string, flipPoint: real, i: nat)
    requires KnownAxis(axis) && i < |m.verts|
    ensures var r := MirrorAppend(m, axis, flipPoint);
      r.verts[i] == m.verts[i] && r.verts[|m.verts| + i] == MirrorVertex(m.verts[i], axis, flipPoint)
  {
  }

  /**
    Face `j` of the original is kept in place, and its mirror image, shifted
    past the original vertices with its winding reversed, sits `|m.faces|`
    places further on.
   */
  lemma MirrorAppendFaceAt(m: Fragment, axis: string, flipPoint: real, j: nat)
    requires KnownAxis(axis) && j < |m.faces|
    ensures var r := MirrorAppend(m, axis, flipPoint);
      r.faces[j] == m.faces[j] && r.faces[|m.faces| + j] == Reverse(ShiftFace(m.faces[j], |m.verts|))
  {
  }
}
