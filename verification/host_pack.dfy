/**
  Hand-off of a finished mesh to the host: the flat coordinate list, the
  flat four-slot face list, and the Create_New_Mesh pipeline (weld, scale
  to scene units, pack).
 */
module HostPack {
  import opened Geometry
  import Weld

  /** Outcome of packing faces: the flat index list, or the size of the first face the host cannot take. */
  datatype Packed = Packed(ints: seq<int>) | BadFace(size: nat)

  /** The flat list of coordinates the host reads three at a time. */
  function UnpackList(verts: seq<Vertex>): (r: seq<real>)
    ensures |r| == 3 * |verts| && |r| % 3 == 0
    ensures forall i :: 0 <= i < |verts| ==>
      r[3 * i] == verts[i].x && r[3 * i + 1] == verts[i].y && r[3 * i + 2] == verts[i].z
  {
    if verts == [] then []
    else [verts[0].x, verts[0].y, verts[0].z] + UnpackList(verts[1..])
  }

  /** Regroup a flat coordinate list into vertices, three numbers each. */
  function RepackList(flat: seq<real>): (r: seq<Vertex>)
    requires |flat| % 3 == 0
    ensures 3 * |r| == |flat|
    decreases |flat|
  {
    if flat == [] then [] else [Vertex(flat[0], flat[1], flat[2])] + RepackList(flat[3..])
  }

  /** Regrouping the flat list gives back exactly the vertices. */
  lemma {:induction false} RepackUnpack(verts: seq<Vertex>)
    ensures RepackList(UnpackList(verts)) == verts
  {
    if verts != [] {
      RepackUnpack(verts[1..]);
      assert UnpackList(verts)[3..] == UnpackList(verts[1..]);
    }
  }

  /**
    The four slots the host reserves for one face. A quad whose last index is
    0 is rotated right by one, so that a 0 in the last slot marks a triangle;
    a triangle gets that 0 appended.
   */
  function FaceSlots(f: Face): (r: seq<int>)
    requires |f| == 3 || |f| == 4
    ensures |r| == 4
  {
    if |f| == 4 && f[3] == 0 then [f[3], f[0], f[1], f[2]]
    else if |f| == 3 then f + [0]
    else f
  }

  /** The flat face list; a face of any other size than 3 or 4 is an error naming its size. */
  function UnpackFaceList(faces: seq<Face>): (r: Packed)
    ensures r.Packed? <==> forall j :: 0 <= j < |faces| ==> |faces[j]| == 3 || |faces[j]| == 4
    ensures r.Packed? ==> |r.ints| == 4 * |faces|
    ensures r.Packed? ==> forall j :: 0 <= j < |faces| ==> r.ints[4 * j..4 * j + 4] == FaceSlots(faces[j])
    ensures r.BadFace? ==> exists j :: (0 <= j < |faces| && r.size == |faces[j]| && r.size != 3 && r.size != 4
      && forall i :: 0 <= i < j ==> |faces[i]| == 3 || |faces[i]| == 4)
  {
    if faces == [] then Packed([])
    else if |faces[0]| != 3 && |faces[0]| != 4 then BadFace(|faces[0]|)
    else
      var rest := UnpackFaceList(faces[1..]);
      if rest.BadFace? then
        assert forall j :: 1 <= j < |faces| ==> faces[j] == faces[1..][j - 1];
        rest
      else
        var r := Packed(FaceSlots(faces[0]) + rest.ints);
        assert forall j :: 1 <= j < |faces| ==> r.ints[4 * j..4 * j + 4] == rest.ints[4 * (j - 1)..4 * (j - 1) + 4];
        r
  }

  /** How the host reads four slots back: a 0 in the last slot means a triangle. */
  function ReadSlots(b: seq<int>): (r: Face)
    requires |b| == 4
  {
    if b[3] == 0 then b[..3] else b
  }

  /** The same quad, started one corner earlier: same cycle, same winding. */
  function RotateRight(f: Face): (r: Face)
    requires |f| == 4
    ensures |r| == 4 && forall k :: 0 <= k < 4 ==> r[k] == f[(k + 3) % 4]
  {
    [f[3], f[0], f[1], f[2]]
  }

  /**
    A well-shaped triangle reads back as itself, and a well-shaped quad reads
    back as itself or as the same cycle rotated: the padding never turns a
    quad into a triangle.
   */
  lemma ReadSlotsRoundTrip(f: Face)
    requires WellShaped(f)
    ensures |f| == 3 ==> ReadSlots(FaceSlots(f)) == f
    ensures |f| == 4 ==> ReadSlots(FaceSlots(f)) == (if f[3] == 0 then RotateRight(f) else f)
    ensures |f| == 4 ==> FaceSlots(f)[3] != 0
  {
    if |f| == 4 && f[3] == 0 {
      assert f[2] != f[3];
    }
    if |f| == 3 {
      assert (f + [0])[..3] == f;
    }
  }

  /** A face the host sees with a 0 in its last slot was a triangle: the ambiguity the rotation avoids. */
  lemma ZeroLastSlotMeansTriangle(f: Face)
    requires WellShaped(f)
    ensures FaceSlots(f)[3] == 0 <==> |f| == 3
  {
    ReadSlotsRoundTrip(f);
  }

  /** Packing valid, well-shaped faces succeeds, and every slot, padding included, names a vertex. */
  lemma {:induction false} PackedIndicesIn(faces: seq<Face>, n: int)
    requires FacesIn(faces, 0, n)
    requires forall j :: 0 <= j < |faces| ==> WellShaped(faces[j])
    ensures UnpackFaceList(faces).Packed?
    ensures forall k :: 0 <= k < |UnpackFaceList(faces).ints| ==> 0 <= UnpackFaceList(faces).ints[k] < n
  {
    if faces != [] {
      PackedIndicesIn(faces[1..], n);
      var f := faces[0];
      assert 0 <= f[0] < n;
      assert UnpackFaceList(faces).ints == FaceSlots(f) + UnpackFaceList(faces[1..]).ints;
    }
  }

  /** The data Create_New_Mesh gives the host: counts and the two flat lists. */
  datatype HostMesh = HostMesh(vertCount: nat, faceCount: nat, coords: seq<real>, slots: seq<int>)

  /** One Blender unit is this many millimetres' worth of the builders' figures. */
  const GlobalScale: real := 0.1

  /** Scale to scene units and pack a mesh of well-shaped faces; the face packing cannot fail. */
  function PackMesh(w: Fragment): (r: HostMesh)
    requires ValidMesh(w)
    requires forall j :: 0 <= j < |w.faces| ==> WellShaped(w.faces[j])
    ensures r.vertCount == |w.verts| && r.faceCount == |w.faces|
    ensures |r.coords| == 3 * r.vertCount && |r.coords| % 3 == 0 && |r.slots| == 4 * r.faceCount
    ensures RepackList(r.coords) == ScaleMeshVerts(w.verts, GlobalScale)
    ensures forall k :: 0 <= k < |r.slots| ==> 0 <= r.slots[k] < r.vertCount
    ensures forall j :: 0 <= j < |w.faces| ==> WellShaped(w.faces[j]) && r.slots[4 * j..4 * j + 4] == FaceSlots(w.faces[j])
  {
    var scaled := ScaleMeshVerts(w.verts, GlobalScale);
    RepackUnpack(scaled);
    PackedIndicesIn(w.faces, |w.verts|);
    HostMesh(|w.verts|, |w.faces|, UnpackList(scaled), UnpackFaceList(w.faces).ints)
  }

  /**
    Create_New_Mesh after the bolt or nut is built: weld doubles, then scale
    and pack. The weld only leaves triangles and quads.
   */
  function CreateNewMesh<K(==,!new)>(m: Fragment, key: Vertex -> K): (r: HostMesh)
    requires ValidMesh(m)
    ensures r.vertCount == |Weld.RemoveDoubles(m.verts, m.faces, key).verts|
    ensures r.faceCount == |Weld.RemoveDoubles(m.verts, m.faces, key).faces| <= |m.faces|
    ensures |r.coords| == 3 * r.vertCount && |r.coords| % 3 == 0 && |r.slots| == 4 * r.faceCount
    ensures RepackList(r.coords) == ScaleMeshVerts(Weld.RemoveDoubles(m.verts, m.faces, key).verts, GlobalScale)
    ensures forall k :: 0 <= k < |r.slots| ==> 0 <= r.slots[k] < r.vertCount
    ensures forall j :: 0 <= j < r.faceCount ==>
      r.slots[4 * j..4 * j + 4] == FaceSlots(Weld.RemoveDoubles(m.verts, m.faces, key).faces[j])
  {
    PackMesh(Weld.RemoveDoubles(m.verts, m.faces, key))
  }
}
