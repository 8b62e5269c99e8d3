/**
  The sqorus: a square torus of 3 x 3 grid cells with the centre cell cut
  out. 16 grid points in two depth layers give 32 vertices (vertex 2k in
  front at +depth/2, 2k + 1 behind it at -depth/2), and 32 hard-coded quads
  close the surface: 16 front and back quads, 12 outer side quads and 4
  inner ones around the hole.
 */
module Sqorus {
  import opened Geometry
  import HostPack

  /** Grid line c of 0..3 along a side of the given size: c thirds of it. */
  function Third(c: int, size: real): real { (c as real) / 3.0 * size }

  /** Vertex `n` of the sqorus: grid point n / 2 (row-major, 4 to a row) in layer n % 2. */
  function GridPoint(width: real, height: real, halfDepth: real, n: nat): Vertex {
    var k := n / 2;
    Vertex(Third(k % 4, width), Third(k / 4, height),
           if n % 2 == 0 then halfDepth else 0.0 - halfDepth)
  }

  /**
    The vertex loop of add_sqorus: rows i = 0..3 at y = i/3 * height, and
    in each row the points j = 0..3 at x = j/3 * width, front then back.
   */
  method SqorusVerts(width: real, height: real, depth: real) returns (verts: seq<Vertex>)
    ensures |verts| == 32
    ensures forall n :: 0 <= n < 32 ==> verts[n] == GridPoint(width, height, depth * 0.5, n)
  {
    var halfDepth := depth * 0.5;
    verts := [];
    var i := 0;
    while i < 4
      invariant 0 <= i <= 4 && |verts| == 8 * i
      invariant forall n :: 0 <= n < |verts| ==> verts[n] == GridPoint(width, height, halfDepth, n)
    {
      var y := Third(i, height);
      var j := 0;
      while j < 4
        invariant 0 <= j <= 4 && |verts| == 8 * i + 2 * j
        invariant forall n :: 0 <= n < |verts| ==> verts[n] == GridPoint(width, height, halfDepth, n)
      {
        var x := Third(j, width);
        GridPointAt(width, height, halfDepth, i, j);
        verts := verts + [Vertex(x, y, halfDepth), Vertex(x, y, 0.0 - halfDepth)];
        j := j + 1;
      }
      i := i + 1;
    }
  }

  /** Grid row i, column j: vertex 8i + 2j in front and 8i + 2j + 1 behind, at x = j/3 * width, y = i/3 * height. */
  lemma GridPointAt(width: real, height: real, halfDepth: real, i: int, j: int)
    requires 0 <= i < 4 && 0 <= j < 4
    ensures GridPoint(width, height, halfDepth, 8 * i + 2 * j)
      == Vertex(Third(j, width), Third(i, height), halfDepth)
    ensures GridPoint(width, height, halfDepth, 8 * i + 2 * j + 1)
      == Vertex(Third(j, width), Third(i, height), 0.0 - halfDepth)
  {
    GridIndex(i, j);
  }

  /** Row i, column j of the grid is vertex pair 8i + 2j, 8i + 2j + 1. */
  lemma GridIndex(i: int, j: int)
    requires 0 <= i < 4 && 0 <= j < 4
    ensures (8 * i + 2 * j) / 2 == 4 * i + j && (8 * i + 2 * j + 1) / 2 == 4 * i + j
    ensures (8 * i + 2 * j) % 2 == 0 && (8 * i + 2 * j + 1) % 2 == 1
    ensures (4 * i + j) % 4 == j && (4 * i + j) / 4 == i
  {
  }

  /** The quad [i + a, i + b, i + c, i + d] the face loops emit for start index i. */
  function Quad(i: int, a: int, b: int, c: int, d: int): (r: Face)
    ensures |r| == 4 && r[0] - i == a && r[1] - i == b && r[2] - i == c && r[3] - i == d
  {
    [i + a, i + b, i + c, i + d]
  }

  /** The cells of the front and back faces: every cell of the 3 x 3 grid but the centre one, 10. */
  const CellStarts: seq<int> := [0, 2, 4, 8, 12, 16, 18, 20]

  predicate AllEven(f: Face) { forall k :: 0 <= k < |f| ==> f[k] % 2 == 0 }
  predicate AllOdd(f: Face) { forall k :: 0 <= k < |f| ==> f[k] % 2 == 1 }

  /** Every corner of `f` is one of the four `corners`: `f` would close that cell. */
  predicate Covers(f: Face, corners: set<int>) {
    forall k :: 0 <= k < |f| ==> f[k] in corners
  }

  /** The front and back corners of the centre cell. */
  const CentreFront: set<int> := {10, 12, 18, 20}
  const CentreBack: set<int> := {11, 13, 19, 21}

  /** A face of the sqorus: a quad on four distinct of the 32 vertices that does not close the centre cell. */
  predicate Good(f: Face) {
    |f| == 4 && IndicesIn(f, 0, 32) && WellShaped(f) && !Covers(f, CentreFront) && !Covers(f, CentreBack)
  }

  /** The start (lower-left front corner) of an outer cell: one of the 3 x 3 cells, not the centre one. */
  predicate OuterCell(i: int) {
    i % 2 == 0 && 0 <= i <= 20 && i % 8 != 6 && i != 10
  }

  /** The front quad of an outer cell is a good, front-layer face. */
  lemma FrontQuad(i: int)
    requires OuterCell(i)
    ensures Good(Quad(i, 0, 2, 10, 8)) && AllEven(Quad(i, 0, 2, 10, 8))
  {
    var q := Quad(i, 0, 2, 10, 8);
    if q[0] in CentreFront {
      assert q[2] !in CentreFront;
    }
    assert q[0] !in CentreBack;
  }

  /** The back quad of an outer cell is a good, back-layer face. */
  lemma BackQuad(i: int)
    requires OuterCell(i)
    ensures Good(Quad(i, 1, 9, 11, 3)) && AllOdd(Quad(i, 1, 9, 11, 3))
  {
    var q := Quad(i, 1, 9, 11, 3);
    if q[0] in CentreBack {
      assert q[2] !in CentreBack;
    }
    assert q[0] !in CentreFront;
  }

  /**
    A quad started at an even index whose shape has both an even and an odd
    offset mixes the two layers, so it closes neither side of the centre cell.
   */
  lemma MixedQuad(i: int, a: int, b: int, c: int, d: int)
    requires i % 2 == 0 && a % 2 == 0 && (b % 2 == 1 || c % 2 == 1 || d % 2 == 1)
    ensures !Covers(Quad(i, a, b, c, d), CentreFront) && !Covers(Quad(i, a, b, c, d), CentreBack)
  {
    var q := Quad(i, a, b, c, d);
    if b % 2 == 1 {
      assert q[1] !in CentreFront;
    } else if c % 2 == 1 {
      assert q[2] !in CentreFront;
    } else {
      assert q[3] !in CentreFront;
    }
    assert q[0] !in CentreBack;
  }

  /** The quads [i + a, i + b, i + c, i + d] for each start i, in order. */
  function Quads(starts: seq<int>, a: int, b: int, c: int, d: int): (r: seq<Face>)
    ensures |r| == |starts|
    ensures forall j :: 0 <= j < |starts| ==> r[j] == Quad(starts[j], a, b, c, d)
  {
    if starts == [] then [] else [Quad(starts[0], a, b, c, d)] + Quads(starts[1..], a, b, c, d)
  }

  /**
    One of the side-face loops: the quad [i + a, i + b, i + c, i + d] for
    each start i in turn, appended to the faces so far.
   */
  method EmitLoop(faces: seq<Face>, starts: seq<int>, a: int, b: int, c: int, d: int) returns (r: seq<Face>)
    requires a != b && a != c && a != d && b != c && b != d && c != d
    requires a == 0 && 0 <= b && 0 <= c && 0 <= d && (b % 2 == 1 || c % 2 == 1 || d % 2 == 1)
    requires forall j :: 0 <= j < |starts| ==>
      starts[j] % 2 == 0 && 0 <= starts[j] && starts[j] + b < 32 && starts[j] + c < 32 && starts[j] + d < 32
    requires forall t :: 0 <= t < |faces| ==> Good(faces[t])
    ensures forall t :: 0 <= t < |r| ==> Good(r[t])
    ensures r == faces + Quads(starts, a, b, c, d)
  {
    r := faces;
    var n := 0;
    while n < |starts|
      invariant 0 <= n <= |starts| && |r| == |faces| + n
      invariant forall t {:trigger r[t]} :: 0 <= t < |faces| ==> r[t] == faces[t]
      invariant forall t :: 0 <= t < |r| ==> Good(r[t])
      invariant forall j :: 0 <= j < n ==> r[|faces| + j] == Quad(starts[j], a, b, c, d)
    {
      var q := Quad(starts[n], a, b, c, d);
      MixedQuad(starts[n], a, b, c, d);
      assert Good(q);
      r := r + [q];
      n := n + 1;
    }
    assert forall t :: 0 <= t < |r| ==> r[t] == (faces + Quads(starts, a, b, c, d))[t] by {
      forall t | 0 <= t < |r|
        ensures r[t] == (faces + Quads(starts, a, b, c, d))[t]
      {
        if t >= |faces| {
          assert r[|faces| + (t - |faces|)] == Quad(starts[t - |faces|], a, b, c, d);
        }
      }
    }
  }

  /** Face t of the front/back loop: the front (t even) or back (t odd) quad of cell starts[t / 2]. */
  function CellQuad(starts: seq<int>, t: nat): Face
    requires t < 2 * |starts|
  {
    if t % 2 == 0 then Quad(starts[t / 2], 0, 2, 10, 8) else Quad(starts[t / 2], 1, 9, 11, 3)
  }

  /** Front faces (even positions) use the front layer only, back faces (odd positions) the back layer only. */
  predicate InLayer(t: nat, f: Face) {
    if t % 2 == 0 then AllEven(f) else AllOdd(f)
  }

  /** The front/back loop: for each outer cell, its front quad and then its back quad. */
  method CellFaces(starts: seq<int>) returns (faces: seq<Face>)
    requires forall j :: 0 <= j < |starts| ==> OuterCell(starts[j])
    ensures |faces| == 2 * |starts|
    ensures forall t :: 0 <= t < |faces| ==>
      faces[t] == CellQuad(starts, t) && Good(faces[t]) && InLayer(t, faces[t])
  {
    faces := [];
    var n := 0;
    while n < |starts|
      invariant 0 <= n <= |starts| && |faces| == 2 * n
      invariant forall t :: 0 <= t < |faces| ==>
        faces[t] == CellQuad(starts, t) && Good(faces[t]) && InLayer(t, faces[t])
    {
      var i := starts[n];
      FrontQuad(i);
      BackQuad(i);
      assert (2 * n) / 2 == n && (2 * n + 1) / 2 == n && (2 * n) % 2 == 0 && (2 * n + 1) % 2 == 1;
      faces := faces + [Quad(i, 0, 2, 10, 8), Quad(i, 1, 9, 11, 3)];
      n := n + 1;
    }
  }

  /**
    The 16 side quads written out one by one: the left, right, bottom and
    top outer sides (three each), then the four sides of the hole.
   */
  const SideQuads: seq<Face> := [
    [0, 8, 9, 1], [8, 16, 17, 9], [16, 24, 25, 17],
    [6, 7, 15, 14], [14, 15, 23, 22], [22, 23, 31, 30],
    [0, 1, 3, 2], [2, 3, 5, 4], [4, 5, 7, 6],
    [24, 26, 27, 25], [26, 28, 29, 27], [28, 30, 31, 29],
    [10, 11, 19, 18], [12, 20, 21, 13], [18, 19, 21, 20], [10, 12, 13, 11]]

  /** The left and right outer side loops, three quads each. */
  method LeftRightSides(prev: seq<Face>) returns (r: seq<Face>)
    requires forall t :: 0 <= t < |prev| ==> Good(prev[t])
    ensures forall t :: 0 <= t < |r| ==> Good(r[t])
    ensures r == prev + SideQuads[..6]
  {
    var q1, q2 := Quads([0, 8, 16], 0, 8, 9, 1), Quads([6, 14, 22], 0, 1, 9, 8);
    LeftRightQuads();
    r := EmitLoop(prev, [0, 8, 16], 0, 8, 9, 1);
    r := EmitLoop(r, [6, 14, 22], 0, 1, 9, 8);
    assert r == prev + (q1 + q2);
  }

  /** The bottom and top outer side loops, three quads each. */
  method BottomTopSides(prev: seq<Face>) returns (r: seq<Face>)
    requires forall t :: 0 <= t < |prev| ==> Good(prev[t])
    ensures forall t :: 0 <= t < |r| ==> Good(r[t])
    ensures r == prev + SideQuads[6..12]
  {
    var q1, q2 := Quads([0, 2, 4], 0, 1, 3, 2), Quads([24, 26, 28], 0, 2, 3, 1);
    BottomTopQuads();
    r := EmitLoop(prev, [0, 2, 4], 0, 1, 3, 2);
    r := EmitLoop(r, [24, 26, 28], 0, 2, 3, 1);
    assert r == prev + (q1 + q2);
  }

  /** The four sides of the hole, one quad each. */
  method HoleSides(prev: seq<Face>) returns (r: seq<Face>)
    requires forall t :: 0 <= t < |prev| ==> Good(prev[t])
    ensures forall t :: 0 <= t < |r| ==> Good(r[t])
    ensures r == prev + SideQuads[12..]
  {
    var q1, q2, q3, q4 := Quads([10], 0, 1, 9, 8), Quads([12], 0, 8, 9, 1),
      Quads([18], 0, 1, 3, 2), Quads([10], 0, 2, 3, 1);
    r := EmitLoop(prev, [10], 0, 1, 9, 8);
    r := EmitLoop(r, [12], 0, 8, 9, 1);
    assert r == prev + (q1 + q2);
    r := EmitLoop(r, [18], 0, 1, 3, 2);
    assert r == prev + (q1 + q2 + q3);
    r := EmitLoop(r, [10], 0, 2, 3, 1);
    assert r == prev + (q1 + q2 + q3 + q4);
    HoleQuads();
  }

  /** Three starts give their three quads. */
  lemma QuadsOfThree(i: int, j: int, k: int, a: int, b: int, c: int, d: int)
    ensures Quads([i, j, k], a, b, c, d) == [Quad(i, a, b, c, d), Quad(j, a, b, c, d), Quad(k, a, b, c, d)]
  {
    assert [i, j, k][1..] == [j, k];
    assert [j, k][1..] == [k];
  }

  /** The left and right loops emit the first six side quads. */
  lemma LeftRightQuads()
    ensures Quads([0, 8, 16], 0, 8, 9, 1) + Quads([6, 14, 22], 0, 1, 9, 8) == SideQuads[..6]
  {
    QuadsOfThree(0, 8, 16, 0, 8, 9, 1);
    QuadsOfThree(6, 14, 22, 0, 1, 9, 8);
  }

  /** The bottom and top loops emit side quads 6 to 11. */
  lemma BottomTopQuads()
    ensures Quads([0, 2, 4], 0, 1, 3, 2) + Quads([24, 26, 28], 0, 2, 3, 1) == SideQuads[6..12]
  {
    QuadsOfThree(0, 2, 4, 0, 1, 3, 2);
    QuadsOfThree(24, 26, 28, 0, 2, 3, 1);
  }

  /** The hole's loops emit the last 4 side quads. */
  lemma HoleQuads()
    ensures Quads([10], 0, 1, 9, 8) + Quads([12], 0, 8, 9, 1)
      + Quads([18], 0, 1, 3, 2) + Quads([10], 0, 2, 3, 1) == SideQuads[12..]
  {
  }

  /** The outer side loops (left, right, bottom, top) and then the four sides of the hole. */
  method SideFaces(cells: seq<Face>) returns (faces: seq<Face>)
    requires forall t :: 0 <= t < |cells| ==> Good(cells[t])
    ensures forall t :: 0 <= t < |faces| ==> Good(faces[t])
    ensures faces == cells + SideQuads
  {
    var sides := LeftRightSides(cells);
    sides := BottomTopSides(sides);
    faces := HoleSides(sides);
    assert SideQuads[..6] + SideQuads[6..12] + SideQuads[12..] == SideQuads;
    assert faces == cells + (SideQuads[..6] + SideQuads[6..12] + SideQuads[12..]);
  }

  /**
    The face loops of add_sqorus: 32 quads on the 32 vertices, none
    repeating a corner and none closing the centre cell; faces 2j and
    2j + 1 are the front (even vertices, at +depth/2) and back (odd
    vertices) quads of the j-th outer cell.
   */
  method SqorusFaces() returns (faces: seq<Face>)
    ensures |faces| == 32
    ensures forall t :: 0 <= t < 32 ==> Good(faces[t])
    ensures forall t :: 0 <= t < 16 ==> faces[t] == CellQuad(CellStarts, t) && InLayer(t, faces[t])
    ensures faces[16..] == SideQuads
  {
    var cells := CellFaces(CellStarts);
    faces := SideFaces(cells);
  }

  /** The quad list flattened, four indices per face, as the host reads it. */
  function Flatten(quads: seq<Face>): (r: seq<int>)
    requires forall j :: 0 <= j < |quads| ==> |quads[j]| == 4
    ensures |r| == 4 * |quads|
    ensures forall j, k :: 0 <= j < |quads| && 0 <= k < 4 ==> r[4 * j + k] == quads[j][k]
  {
    if quads == [] then []
    else
      var rest := Flatten(quads[1..]);
      assert forall j, k :: 1 <= j < |quads| && 0 <= k < 4 ==> quads[j][k] == quads[1..][j - 1][k];
      quads[0] + rest
  }

  /** The flat coordinate list of add_sqorus: three numbers per grid point, in vertex order. */
  method SqorusCoords(width: real, height: real, depth: real) returns (coords: seq<real>)
    ensures |coords| == 96
    ensures forall n :: 0 <= n < 32 ==>
      coords[3 * n] == GridPoint(width, height, depth * 0.5, n).x
      && coords[3 * n + 1] == GridPoint(width, height, depth * 0.5, n).y
      && coords[3 * n + 2] == GridPoint(width, height, depth * 0.5, n).z
  {
    var verts := SqorusVerts(width, height, depth);
    coords := HostPack.UnpackList(verts);
    forall n | 0 <= n < 32
      ensures coords[3 * n] == GridPoint(width, height, depth * 0.5, n).x
      ensures coords[3 * n + 1] == GridPoint(width, height, depth * 0.5, n).y
      ensures coords[3 * n + 2] == GridPoint(width, height, depth * 0.5, n).z
    {
      assert verts[n] == GridPoint(width, height, depth * 0.5, n);
    }
  }

  /**
    The flat index list of add_sqorus: four slots per quad; block t is face
    t, the cells' front and back quads first and then the side quads.
   */
  method SqorusSlots() returns (slots: seq<int>)
    ensures |slots| == 128
    ensures forall t :: 0 <= t < |slots| ==> 0 <= slots[t] < 32
    ensures forall t :: 0 <= t < 32 ==> Good(slots[4 * t..4 * t + 4])
    ensures forall t :: 0 <= t < 16 ==>
      slots[4 * t..4 * t + 4] == CellQuad(CellStarts, t) && InLayer(t, slots[4 * t..4 * t + 4])
    ensures forall t :: 16 <= t < 32 ==> slots[4 * t..4 * t + 4] == SideQuads[t - 16]
  {
    var faces := SqorusFaces();
    slots := Flatten(faces);
    FlattenGood(faces);
    forall t | 0 <= t < 32
      ensures Good(slots[4 * t..4 * t + 4])
    {
      assert slots[4 * t..4 * t + 4] == faces[t];
    }
    assert forall t :: 16 <= t < 32 ==> faces[t] == faces[16..][t - 16];
  }

  /**
    add_sqorus: the flat coordinate list (three numbers per vertex) and the
    flat index list (four per quad) the operator hands to the host, which
    reads them as len / 3 vertices and len / 4 faces.
   */
  method AddSqorus(width: real, height: real, depth: real) returns (coords: seq<real>, slots: seq<int>)
    ensures |coords| == 96 && |slots| == 128
    ensures forall n :: 0 <= n < 32 ==>
      coords[3 * n] == GridPoint(width, height, depth * 0.5, n).x
      && coords[3 * n + 1] == GridPoint(width, height, depth * 0.5, n).y
      && coords[3 * n + 2] == GridPoint(width, height, depth * 0.5, n).z
    ensures forall t :: 0 <= t < |slots| ==> 0 <= slots[t] < |coords| / 3
    ensures forall t :: 0 <= t < 32 ==> Good(slots[4 * t..4 * t + 4])
    ensures forall t :: 0 <= t < 16 ==>
      slots[4 * t..4 * t + 4] == CellQuad(CellStarts, t) && InLayer(t, slots[4 * t..4 * t + 4])
    ensures forall t :: 16 <= t < 32 ==> slots[4 * t..4 * t + 4] == SideQuads[t - 16]
  {
    coords := SqorusCoords(width, height, depth);
    slots := SqorusSlots();
  }

  /** Flattening good quads: block t of four slots is quad t, and every slot names one of the 32 vertices. */
  lemma FlattenGood(faces: seq<Face>)
    requires forall t :: 0 <= t < |faces| ==> |faces[t]| == 4
    requires forall t :: 0 <= t < |faces| ==> Good(faces[t])
    ensures |Flatten(faces)| == 4 * |faces|
    ensures forall k :: 0 <= k < |Flatten(faces)| ==> 0 <= Flatten(faces)[k] < 32
    ensures forall t :: 0 <= t < |faces| ==> Flatten(faces)[4 * t..4 * t + 4] == faces[t]
  {
    var slots := Flatten(faces);
    forall k | 0 <= k < |slots|
      ensures 0 <= slots[k] < 32
    {
      var j := k / 4;
      assert k == 4 * j + k % 4 && slots[k] == faces[j][k % 4];
      assert Good(faces[j]);
    }
    forall t | 0 <= t < |faces|
      ensures slots[4 * t..4 * t + 4] == faces[t]
    {
      FlattenBlock(faces, t);
    }
  }

  /** Block j of the flattened list is quad j. */
  lemma FlattenBlock(quads: seq<Face>, j: nat)
    requires forall i :: 0 <= i < |quads| ==> |quads[i]| == 4
    requires j < |quads|
    ensures Flatten(quads)[4 * j..4 * j + 4] == quads[j]
  {
    var r := Flatten(quads);
    var q := quads[j];
    assert r[4 * j..4 * j + 4] == [r[4 * j], r[4 * j + 1], r[4 * j + 2], r[4 * j + 3]];
    assert q == [q[0], q[1], q[2], q[3]];
  }
}
