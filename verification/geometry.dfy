/**
  Shared vocabulary of the bolt factory: vertices, faces, mesh fragments,
  the index-validity predicates every builder is proved against, and the
  transcendental functions (left as parameters) that place vertices.
 */
module Geometry {

  /** A vertex position; the source keeps it as a three-element float list. */
  datatype Vertex = Vertex(x: real, y: real, z: real)

  /** A face: an ordered list of vertex indices; winding order gives the normal. */
  type Face = seq<int>

  /** The squared Euclidean distance between two points. */
  function DistanceSquared(a: Vertex, b: Vertex): real {
    (a.x - b.x) * (a.x - b.x) + (a.y - b.y) * (a.y - b.y) + (a.z - b.z) * (a.z - b.z)
  }

  /** A mesh fragment: vertices plus faces indexed from the fragment's start. */
  datatype Fragment = Fragment(verts: seq<Vertex>, faces: seq<Face>)

  /**
    The sine, cosine and tangent of an angle in DEGREES, the square root used
    for vector lengths, and the rotation about the z axis that SpinDup applies
    (angle in degrees). The source takes them from Python's math module and the
    host's matrix library; the model only fixes the two facts it divides by.
   */
  datatype Math = Math(
    sinDeg: real -> real,
    cosDeg: real -> real,
    tanDeg: real -> real,
    sqrt: real -> real,
    rotZ: (Vertex, real) -> Vertex)
  {
    /** cos 30 degrees and tan 31 degrees are divisors in the source; both are positive. */
    predicate Sane() {
      cosDeg(30.0) > 0.0 && tanDeg(31.0) > 0.0
    }
  }

  /** Number of iterations of Python's `range(n)`: negative counts give none. */
  function Count(n: int): (r: nat)
    ensures n >= 0 ==> r == n
    ensures n < 0 ==> r == 0
  {
    if n < 0 then 0 else n
  }

  /** Every index of `f` lies in the half-open range [lo, hi). */
  predicate IndicesIn(f: Face, lo: int, hi: int) {
    forall k :: 0 <= k < |f| ==> lo <= f[k] < hi
  }

  /** Every face of `faces` indexes into [lo, hi). */
  predicate FacesIn(faces: seq<Face>, lo: int, hi: int) {
    forall j :: 0 <= j < |faces| ==> IndicesIn(faces[j], lo, hi)
  }

  /** The index-validity invariant: every face index is below the vertex count. */
  predicate ValidMesh(m: Fragment) {
    FacesIn(m.faces, 0, |m.verts|)
  }

  /** The indices of a face are pairwise distinct. */
  predicate DistinctIndices(f: Face) {
    forall i, j :: 0 <= i < j < |f| ==> f[i] != f[j]
  }

  /** A face the host accepts: a triangle or a quad with distinct corners. */
  predicate WellShaped(f: Face) {
    (|f| == 3 || |f| == 4) && DistinctIndices(f)
  }

  /** Every face is one the host accepts. */
  predicate AllShaped(faces: seq<Face>) {
    forall j :: 0 <= j < |faces| ==> WellShaped(faces[j])
  }

  /** The same face listed in the opposite winding order. */
  function Reverse(f: Face): (r: Face)
    ensures |r| == |f|
    ensures forall k :: 0 <= k < |f| ==> r[k] == f[|f| - 1 - k]
  {
    if f == [] then [] else Reverse(f[1..]) + [f[0]]
  }

  lemma {:induction false} ReverseReverse(f: Face)
    ensures Reverse(Reverse(f)) == f
  {
    var rr := Reverse(Reverse(f));
    assert |rr| == |f|;
    forall k | 0 <= k < |f|
      ensures rr[k] == f[k]
    {
      assert rr[k] == Reverse(f)[|f| - 1 - k];
    }
  }

  lemma ReverseKeepsBounds(f: Face, lo: int, hi: int)
    requires IndicesIn(f, lo, hi)
    ensures IndicesIn(Reverse(f), lo, hi)
  {
  }

  lemma FacesInWiden(faces: seq<Face>, lo: int, hi: int, lo': int, hi': int)
    requires FacesIn(faces, lo, hi)
    requires lo' <= lo && hi <= hi'
    ensures FacesIn(faces, lo', hi')
  {
  }

  lemma FacesInConcat(a: seq<Face>, b: seq<Face>, lo: int, hi: int)
    requires FacesIn(a, lo, hi) && FacesIn(b, lo, hi)
    ensures FacesIn(a + b, lo, hi)
  {
  }

  lemma AllShapedConcat(a: seq<Face>, b: seq<Face>)
    requires AllShaped(a) && AllShaped(b)
    ensures AllShaped(a + b)
  {
  }

  /**
    The builders' ring loop: `count` points at angles 0, step, 2*step, ...
    degrees, x = sin(angle) * radius and y = cos(angle) * radius, all at
    height z.
   */
  function Arc(m: Math, count: nat, step: real, radius: real, z: real): (r: seq<Vertex>)
    ensures |r| == count
    ensures forall i :: 0 <= i < count ==> r[i].z == z
  {
    seq(count, i requires 0 <= i < count =>
      Vertex(m.sinDeg((i as real) * step) * radius, m.cosDeg((i as real) * step) * radius, z))
  }

  /** Move_Verts_Up_Z: translate every vertex along z by `d`. */
  function MoveVertsUpZ(verts: seq<Vertex>, d: real): (r: seq<Vertex>)
    ensures |r| == |verts|
    ensures forall i :: 0 <= i < |r| ==>
      r[i].x == verts[i].x && r[i].y == verts[i].y && r[i].z - verts[i].z == d
  {
    seq(|verts|, i requires 0 <= i < |verts| => Vertex(verts[i].x, verts[i].y, verts[i].z + d))
  }

  /** Moving up by `d` and then by `-d` gives back the original vertices. */
  lemma MoveUpThenDown(verts: seq<Vertex>, d: real)
    ensures MoveVertsUpZ(MoveVertsUpZ(verts, d), -d) == verts
  {
    var r := MoveVertsUpZ(MoveVertsUpZ(verts, d), -d);
    assert forall i :: 0 <= i < |r| ==> r[i] == verts[i];
  }

  /** Scale_Mesh_Verts: multiply every coordinate by `s`. */
  function ScaleMeshVerts(verts: seq<Vertex>, s: real): (r: seq<Vertex>)
    ensures |r| == |verts|
    ensures forall i :: 0 <= i < |r| ==>
      r[i].x == verts[i].x * s && r[i].y == verts[i].y * s && r[i].z == verts[i].z * s
  {
    seq(|verts|, i requires 0 <= i < |verts| => Vertex(verts[i].x * s, verts[i].y * s, verts[i].z * s))
  }

  /** Scaling by a non-zero factor is undone by scaling by its reciprocal. */
  lemma ScaleThenUnscale(verts: seq<Vertex>, s: real)
    requires s != 0.0
    ensures ScaleMeshVerts(ScaleMeshVerts(verts, s), 1.0 / s) == verts
  {
    var r := ScaleMeshVerts(ScaleMeshVerts(verts, s), 1.0 / s);
    forall i | 0 <= i < |r|
      ensures r[i] == verts[i]
    {
      assert verts[i].x * s * (1.0 / s) == verts[i].x;
      assert verts[i].y * s * (1.0 / s) == verts[i].y;
      assert verts[i].z * s * (1.0 / s) == verts[i].z;
    }
  }

  /** Python's min over the vertices' heights, starting from 0 as the builders' Lowest_Z_Vert does. */
  function LowestZ(verts: seq<Vertex>): (r: real)
    ensures r <= 0.0
    ensures forall i :: 0 <= i < |verts| ==> r <= verts[i].z
    ensures r == 0.0 || exists i :: 0 <= i < |verts| && verts[i].z == r
    decreases |verts|
  {
    if verts == [] then 0.0
    else
      var prev := LowestZ(verts[..|verts| - 1]);
      var z := verts[|verts| - 1].z;
      assert forall i :: 0 <= i < |verts| - 1 ==> verts[..|verts| - 1][i] == verts[i];
      if z < prev then z else prev
  }

  /** When no vertex is below `lo`, the lowest height is at least `lo` (or 0, where the search starts, if that is lower). */
  lemma {:induction false} LowestZFloor(verts: seq<Vertex>, lo: real)
    requires forall i :: 0 <= i < |verts| ==> verts[i].z >= lo
    ensures LowestZ(verts) >= (if lo < 0.0 then lo else 0.0)
    decreases |verts|
  {
    if verts != [] {
      var init := verts[..|verts| - 1];
      assert forall i :: 0 <= i < |init| ==> init[i] == verts[i];
      LowestZFloor(init, lo);
    }
  }
}
