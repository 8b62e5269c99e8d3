/**
  The bolt heads. The round heads (pan, dome, cap) are a half profile in the
  x-z plane revolved in 36 steps of 10 degrees about z; the hex head is one
  twelfth of the head, mirrored and spun six times.
 */
module Heads {
  import opened Geometry
  import opened MeshOps
  import opened Stitch

  /** A head mesh and the height the builder reports for it. */
  datatype Head = Head(mesh: Fragment, height: real)

  /** Points of a profile arc: `count` angles from `start` in steps of `step` degrees, each placed by `place`. */
  function Sweep(count: nat, start: real, step: real, place: real -> Vertex): (r: seq<Vertex>)
    ensures |r| == count
    ensures forall k :: 0 <= k < count ==> r[k] == place(SweepAngle(start, step, k))
  {
    seq(count, k => place(SweepAngle(start, step, k)))
  }

  /** The angle of step `k` of a sweep, in degrees. */
  function SweepAngle(start: real, step: real, k: int): real {
    start + (k as real) * step
  }

  // ---------------------------------------------------------------------------
  // Revolving a profile
  // ---------------------------------------------------------------------------

  /**
    The round-head pattern: spin the profile 36 times by 10 degrees, append
    the profile once more to close the loop, and join consecutive copies
    with Build_Face_List_Quads(faceStart, Row - 1, 36, FLIP). The heads
    use FLIP = 0, the nylon insert of the lock nut FLIP = 1.
   */
  function Revolve(m: Math, profile: seq<Vertex>, faceStart: int, flip: bool): (r: Fragment)
    requires |profile| >= 1
    ensures |r.verts| == 37 * |profile|
    ensures |r.faces| == 36 * (|profile| - 1)
    ensures AllShaped(r.faces) && FacesIn(r.faces, faceStart, faceStart + |r.verts|)
    ensures r.verts[36 * |profile|..] == profile
  {
    var row := |profile|;
    var spun := SpinDup(profile, [], 360.0, 36, m.rotZ);
    var faces := BuildFaceListQuads(faceStart, row - 1, 36, flip);
    RevolveFaces(faceStart, row, flip);
    var r := Fragment(spun.verts + profile, faces);
    assert |r.verts| == 37 * row;
    r
  }

  /** The quads joining 37 copies of a profile of `row` points. */
  lemma RevolveFaces(faceStart: int, row: int, flip: bool)
    requires row >= 1
    ensures var faces := BuildFaceListQuads(faceStart, row - 1, 36, flip);
      AllShaped(faces) && FacesIn(faces, faceStart, faceStart + 37 * row)
  {
    var g := GridRows(faceStart, row - 1, 36, flip);
    assert BuildFaceListQuads(faceStart, row - 1, 36, flip) == g;
    GridRowsShape(faceStart, row - 1, 36, flip, 36);
    assert (row - 1 + 1) * (36 + 1) == 37 * row;
    assert FacesIn(g, faceStart, faceStart + 37 * row);
  }

  /** The revolved vertices are the 36 spun copies followed by the profile itself. */
  lemma RevolveVerts(m: Math, profile: seq<Vertex>, faceStart: int, flip: bool)
    requires |profile| >= 1
    ensures Revolve(m, profile, faceStart, flip).verts == SpinCopies(profile, [], 360.0 / 36.0, 36, m.rotZ).verts + profile
  {
    assert Count(36) == 36 && 360.0 / (36 as real) == 360.0 / 36.0;
  }

  /**
    Grid point (j, i) of a revolved profile is profile point i turned by
    10 * j degrees; the closing copy (j = 36) is the profile itself.
   */
  lemma RevolveGrid(m: Math, profile: seq<Vertex>, faceStart: int, flip: bool, j: nat, i: nat, n: nat)
    requires |profile| >= 1 && j <= 36 && i < |profile| && n == j * |profile| + i
    ensures n < |Revolve(m, profile, faceStart, flip).verts|
    ensures Revolve(m, profile, faceStart, flip).verts[n] ==
      if j < 36 then m.rotZ(profile[i], CopyAngle(360.0 / 36.0, j)) else profile[i]
  {
    if j < 36 {
      RevolveSpunPoint(m, profile, faceStart, flip, j, i, n);
    } else {
      ClosingCopyIndex(j, |profile|, i, n);
      RevolveClosingPoint(m, profile, faceStart, flip, i);
    }
  }

  /** Point i of spun copy j < 36 is profile point i turned by 10 * j degrees. */
  lemma RevolveSpunPoint(m: Math, profile: seq<Vertex>, faceStart: int, flip: bool, j: nat, i: nat, n: nat)
    requires j < 36 && i < |profile| && n == j * |profile| + i
    ensures n < 36 * |profile|
    ensures Revolve(m, profile, faceStart, flip).verts[n] == m.rotZ(profile[i], CopyAngle(360.0 / 36.0, j))
  {
    var spun := SpinCopies(profile, [], 360.0 / 36.0, 36, m.rotZ).verts;
    RevolveVerts(m, profile, faceStart, flip);
    MulMono(j + 1, 36, |profile|);
    SpinCopyVertAt(profile, [], 360.0 / 36.0, 36, m.rotZ, j, i, n);
    assert (spun + profile)[n] == spun[n];
  }

  /** Point i of the closing copy is profile point i itself. */
  lemma RevolveClosingPoint(m: Math, profile: seq<Vertex>, faceStart: int, flip: bool, i: nat)
    requires i < |profile|
    ensures Revolve(m, profile, faceStart, flip).verts[36 * |profile| + i] == profile[i]
  {
    var spun := SpinCopies(profile, [], 360.0 / 36.0, 36, m.rotZ).verts;
    RevolveVerts(m, profile, faceStart, flip);
    assert |spun| == 36 * |profile|;
    assert (spun + profile)[|spun| + i] == profile[i];
  }

  lemma ClosingCopyIndex(j: int, row: int, i: int, n: int)
    requires j == 36 && n == j * row + i
    ensures n == 36 * row + i
  {
  }

  /** Quad (j, i) of a revolved profile joins points i and i + 1 of copies j and j + 1. */
  lemma RevolveCell(m: Math, profile: seq<Vertex>, faceStart: int, flip: bool, j: nat, i: nat, n: nat)
    requires |profile| >= 1 && j < 36 && i < |profile| - 1 && n == j * (|profile| - 1) + i
    ensures n < |Revolve(m, profile, faceStart, flip).faces|
    ensures Revolve(m, profile, faceStart, flip).faces[n] ==
      GridQuad(faceStart, |profile| - 1, j, i, flip)
  {
    BuildFaceListQuadsCells(faceStart, |profile| - 1, 36, flip, j, i);
  }

  // ---------------------------------------------------------------------------
  // Pan head
  // ---------------------------------------------------------------------------

  /**
    Max_Pan_Bit_Dia: the widest drive hole a pan head of this diameter
    takes, the diameter of the circle through the first rounding point
    (at 10 degrees) of the pan head's profile.
   */
  function MaxPanBitDia(m: Math, headDia: real): (r: real)
    ensures forall holeDia, shankDia :: r == 2.0 * PanProfile(m, holeDia, headDia, shankDia)[1].x
  {
    (m.sinDeg(10.0) * (headDia * 0.5 * 1.976)) * 2.0
  }

  /** The pan head's vertical profile constants, all proportional to the head radius. */
  function PanHeight(headRadius: real): real { headRadius * 0.59 }

  /** One point of the pan head's end rounding, clamped to the underside of the head. */
  function PanEndPoint(m: Math, headRadius: real, angle: real): (v: Vertex)
    ensures v.z >= 0.0 - PanHeight(headRadius)
  {
    var endRad := headRadius * 0.284;
    var endZOffset := headRadius * 0.432;
    var height := PanHeight(headRadius);
    var x := m.sinDeg(angle) * endRad;
    var z := m.cosDeg(angle) * endRad;
    if (0.0 - endZOffset) + z < 0.0 - height then Vertex((headRadius - endRad) + x, 0.0, 0.0 - height)
    else Vertex((headRadius - endRad) + x, 0.0, (0.0 - endZOffset) + z)
  }

  /** How far the pan profile is raised so that its first point sits at z = 0. */
  function PanStartHeight(m: Math, headRadius: real): real {
    var zRad := headRadius * 1.768;
    0.0 - ((0.0 - zRad) + m.cosDeg(10.0) * zRad)
  }

  /** The 17 profile points of the pan head before it is raised. */
  function PanProfile(m: Math, holeDia: real, headDia: real, shankDia: real): (r: seq<Vertex>)
    ensures |r| == 17
    ensures r[0].z + PanStartHeight(m, headDia * 0.5) == 0.0
    ensures forall k :: 3 <= k < 15 ==> r[k].z >= 0.0 - PanHeight(headDia * 0.5)
    ensures r[15].z == 0.0 - PanHeight(headDia * 0.5)
    ensures r[16].z == 0.0 - PanHeight(headDia * 0.5) - PanStartHeight(m, headDia * 0.5)
  {
    var headRadius := headDia * 0.5;
    var shankRadius := shankDia * 0.5;
    var xRad := headRadius * 1.976;
    var zRad := headRadius * 1.768;
    var height := PanHeight(headRadius);
    var startHeight := PanStartHeight(m, headRadius);
    [Vertex(holeDia * 0.5, 0.0, (0.0 - zRad) + m.cosDeg(10.0) * zRad)]
    + Sweep(2, 10.0, 10.0, a => Vertex(m.sinDeg(a) * xRad, 0.0, (0.0 - zRad) + m.cosDeg(a) * zRad))
    + Sweep(12, 20.0, 10.0, a => PanEndPoint(m, headRadius, a))
    + [Vertex(shankRadius, 0.0, 0.0 - height), Vertex(shankRadius, 0.0, (0.0 - height) - startHeight)]
  }

  /**
    Create_Pan_Head: the profile revolved and raised so the top of the head
    is at z = 0. The reported height is 0.59 of the head radius whatever
    height the caller passed.
   */
  function CreatePanHead(m: Math, holeDia: real, headDia: real, shankDia: real, height: real,
                         rad1: real, rad2: real, faceOffset: int): (r: Head)
    ensures |r.mesh.verts| == 37 * 17 && |r.mesh.faces| == 36 * 16
    ensures AllShaped(r.mesh.faces) && FacesIn(r.mesh.faces, faceOffset, faceOffset + 37 * 17)
    ensures r.height == headDia * 0.5 * 0.59
    ensures r.mesh.verts[36 * 17].z == 0.0
    ensures forall k :: 36 * 17 + 3 <= k < 36 * 17 + 15 ==>
      r.mesh.verts[k].z >= PanStartHeight(m, headDia * 0.5) - r.height
  {
    var profile := PanProfile(m, holeDia, headDia, shankDia);
    var rev := Revolve(m, profile, faceOffset, false);
    var start := PanStartHeight(m, headDia * 0.5);
    assert forall k :: 0 <= k < 17 ==> rev.verts[36 * 17 + k] == profile[k];
    Head(Fragment(MoveVertsUpZ(rev.verts, start), rev.faces), PanHeight(headDia * 0.5))
  }

  // ---------------------------------------------------------------------------
  // Dome head
  // ---------------------------------------------------------------------------

  /** The dome cap points at 0, 10, ..., 50 degrees that lie at or below the top plane. */
  function DomeCap(m: Math, headRadius: real, k: nat): (r: seq<Vertex>)
    requires k <= 6
    ensures |r| <= k
    ensures forall q :: 0 <= q < |r| ==> r[q].z <= 0.0
    decreases k
  {
    if k == 0 then []
    else
      var domeRad := headRadius * 1.12;
      var radOffset := headRadius * 0.98;
      var angle := ((k - 1) as real) * 10.0;
      var z := (0.0 - radOffset) + m.cosDeg(angle) * domeRad;
      var prev := DomeCap(m, headRadius, k - 1);
      if z <= 0.0 then prev + [Vertex(m.sinDeg(angle) * domeRad, 0.0, z)] else prev
  }

  function DomeHeight(headRadius: real): real { headRadius * 0.64 }

  /** One point of the dome's outer rounding, clamped to the underside of the head. */
  function DomeRimPoint(m: Math, headRadius: real, angle: real): (v: Vertex)
    ensures v.z >= 0.0 - DomeHeight(headRadius)
  {
    var otherRad := headRadius * 0.16;
    var z := (0.0 - headRadius * 0.504) + m.cosDeg(angle) * otherRad;
    var z' := if z < 0.0 - DomeHeight(headRadius) then 0.0 - DomeHeight(headRadius) else z;
    Vertex(headRadius * 0.84 + m.sinDeg(angle) * otherRad, 0.0, z')
  }

  /** The ten points of the dome's outer rounding, at 60, 70, ..., 150 degrees. */
  function DomeRim(m: Math, headRadius: real): (r: seq<Vertex>)
    ensures |r| == 10
    ensures forall k :: 0 <= k < |r| ==> r[k].z >= 0.0 - DomeHeight(headRadius)
  {
    Sweep(10, 60.0, 10.0, a => DomeRimPoint(m, headRadius, a))
  }

  /**
    The dome head's profile: the hole edge, the cap points kept (those not
    above the top plane), the ten rounding points and the shank point. The
    cap part never rises above z = 0 and the rest never sinks below the
    underside of the head.
   */
  function DomeProfile(m: Math, holeDia: real, headDia: real, shankDia: real): (r: seq<Vertex>)
    ensures 12 <= |r| <= 18
    ensures r[0].z == 0.0 && r[|r| - 1].z == 0.0 - DomeHeight(headDia * 0.5)
    ensures forall k :: 0 <= k < |r| - 11 ==> r[k].z <= 0.0
    ensures forall k :: |r| - 11 <= k < |r| ==> r[k].z >= 0.0 - DomeHeight(headDia * 0.5)
  {
    var headRadius := headDia * 0.5;
    var cap := [Vertex(holeDia * 0.5, 0.0, 0.0)] + DomeCap(m, headRadius, 6);
    var tail := DomeRim(m, headRadius) + [Vertex(shankDia * 0.5, 0.0, 0.0 - DomeHeight(headRadius))];
    assert forall k :: 0 <= k < |tail| ==> tail[k].z >= 0.0 - DomeHeight(headRadius);
    assert forall k :: 0 <= k < |cap| ==> cap[k].z <= 0.0;
    ConcatParts(cap, tail);
    cap + tail
  }

  /** Indexing a concatenation: the head part, then the tail part. */
  lemma ConcatParts(a: seq<Vertex>, b: seq<Vertex>)
    ensures forall k :: 0 <= k < |a| ==> (a + b)[k] == a[k]
    ensures forall k :: |a| <= k < |a| + |b| ==> (a + b)[k] == b[k - |a|]
  {
  }

  /**
    Create_Dome_Head: the dome profile revolved. The reported height is 0.64
    of the head radius, and the closing copy of the profile stays between
    the top plane and the underside.
   */
  function CreateDomeHead(m: Math, holeDia: real, headDia: real, shankDia: real, height: real,
                          rad1: real, rad2: real, faceOffset: int): (r: Head)
    ensures var row := |DomeProfile(m, holeDia, headDia, shankDia)|;
      |r.mesh.verts| == 37 * row && |r.mesh.faces| == 36 * (row - 1)
    ensures AllShaped(r.mesh.faces) && FacesIn(r.mesh.faces, faceOffset, faceOffset + |r.mesh.verts|)
    ensures r.height == headDia * 0.5 * 0.64
    ensures var row := |DomeProfile(m, holeDia, headDia, shankDia)|;
      r.mesh.verts[36 * row..] == DomeProfile(m, holeDia, headDia, shankDia)
  {
    Head(Revolve(m, DomeProfile(m, holeDia, headDia, shankDia), faceOffset, false), DomeHeight(headDia * 0.5))
  }

  // ---------------------------------------------------------------------------
  // Cap head
  // ---------------------------------------------------------------------------

  /** The cap head's 23 profile points: hole edge, top rounding, bevelled side, rounding into the shank. */
  function CapProfile(m: Math, holeDia: real, headDia: real, shankDia: real, height: real,
                      rad1: real, rad2: real): (r: seq<Vertex>)
    ensures |r| == 23
    ensures r[0].z == 0.0 && r[12].z == 0.0 - height
  {
    var headRadius := headDia * 0.5;
    var shankRadius := shankDia * 0.5;
    var bevel := height * 0.01;
    [Vertex(holeDia * 0.5, 0.0, 0.0)]
    + Sweep(10, 0.0, 10.0, a => Vertex((headRadius - rad1) + m.sinDeg(a) * rad1, 0.0, (0.0 - rad1) + m.cosDeg(a) * rad1))
    + [Vertex(headRadius, 0.0, 0.0 - height + bevel), Vertex(headRadius - bevel, 0.0, 0.0 - height)]
    + Sweep(10, 0.0, 10.0, a => Vertex((shankRadius + rad2) - m.sinDeg(a) * rad2, 0.0, (0.0 - height - rad2) + m.cosDeg(a) * rad2))
  }

  /** Create_Cap_Head: the cap profile revolved from index 0; the reported height adds the shank rounding. */
  function CreateCapHead(m: Math, holeDia: real, headDia: real, shankDia: real, height: real,
                         rad1: real, rad2: real): (r: Head)
    ensures |r.mesh.verts| == 37 * 23 && |r.mesh.faces| == 36 * 22
    ensures ValidMesh(r.mesh) && AllShaped(r.mesh.faces)
    ensures r.height == height + rad2
  {
    var rev := Revolve(m, CapProfile(m, holeDia, headDia, shankDia, height, rad1, rad2), 0, false);
    Head(rev, height + rad2)
  }

  // ---------------------------------------------------------------------------
  // Hex head
  // ---------------------------------------------------------------------------

  /** The point of the top bevel circle in the direction `angle` from the y axis. */
  function BevelPoint(m: Math, bevelRadius: real, angle: real): Vertex {
    Vertex(m.sinDeg(angle) * bevelRadius, m.cosDeg(angle) * bevelRadius, 0.0)
  }

  /** The point of the flat y = halfFlat in the direction `angle` from the y axis. */
  function FlatPoint(m: Math, halfFlat: real, angle: real): Vertex {
    Vertex(m.tanDeg(angle) * halfFlat, halfFlat, 0.0)
  }

  /**
    Depth below the top at which a flat meets the bevel cone, at one of the
    four angles: the length of the vector from the flat's point to the
    bevel circle's point in the same direction.
   */
  function FlatDrop(m: Math, halfFlat: real, bevelRadius: real, angle: real): (r: real)
    ensures r == m.sqrt(DistanceSquared(BevelPoint(m, bevelRadius, angle), FlatPoint(m, halfFlat, angle)))
  {
    var x := m.tanDeg(angle) * halfFlat;
    var dx := m.sinDeg(angle) * bevelRadius - x;
    var dy := m.cosDeg(angle) * bevelRadius - halfFlat;
    assert dx * dx + dy * dy + 0.0 * 0.0
      == DistanceSquared(BevelPoint(m, bevelRadius, angle), FlatPoint(m, halfFlat, angle));
    m.sqrt(dx * dx + dy * dy + 0.0 * 0.0)
  }

  /** Four points on one flat of the hexagon (y = halfFlat) at 0, 10, 20, 30 degrees, all at height `z`. */
  function FlatRow(m: Math, halfFlat: real, z: real): (r: seq<Vertex>)
    ensures |r| == 4
  {
    Sweep(4, 0.0, 10.0, a => Vertex(m.tanDeg(a) * halfFlat, halfFlat, z))
  }

  /**
    One twelfth of the hex head: the centre, then nine rows of four points
    at 0, 10, 20 and 30 degrees (hole edge, bevel, flats, the flats' lower
    edges, the undercut and the shank bevel).
   */
  function HexTwelfth(m: Math, flat: real, holeDia: real, shankDia: real, height: real): (r: seq<Vertex>)
    ensures |r| == 37
    ensures r[0] == Vertex(0.0, 0.0, 0.0)
  {
    var holeRadius := holeDia * 0.5;
    var halfFlat := flat / 2.0;
    var bevelRadius := halfFlat - halfFlat * (0.05 / 8.0);
    var undercut := halfFlat * (0.05 / 8.0);
    var shankBevel := halfFlat * (0.05 / 8.0);
    var flatHeight := height - undercut - shankBevel;
    var shankRadius := shankDia / 2.0;
    var lowest := 0.0 - FlatDrop(m, halfFlat, bevelRadius, 30.0);
    [Vertex(0.0, 0.0, 0.0)]
    + Arc(m, 4, 10.0, holeRadius, 0.0)
    + Arc(m, 4, 10.0, bevelRadius, 0.0)
    + Sweep(4, 0.0, 10.0, a => Vertex(m.tanDeg(a) * halfFlat, halfFlat, 0.0 - FlatDrop(m, halfFlat, bevelRadius, a)))
    + FlatRow(m, halfFlat, lowest)
    + FlatRow(m, halfFlat, 0.0 - flatHeight)
    + Arc(m, 4, 10.0, halfFlat, 0.0 - flatHeight)
    + Arc(m, 4, 10.0, halfFlat, 0.0 - flatHeight - undercut)
    + Arc(m, 4, 10.0, shankRadius + shankBevel, 0.0 - flatHeight - undercut)
    + Arc(m, 4, 10.0, shankRadius, 0.0 - flatHeight - undercut - shankBevel)
  }

  /**
    Create_Hex_Head: the twelfth's 8 x 3 quads, mirrored across x = 0 to a
    sixth, spun six times. The reported height is the height passed in.
   */
  function CreateHexHead(m: Math, flat: real, holeDia: real, shankDia: real, height: real): (r: Head)
    ensures |r.mesh.verts| == 6 * 74 && |r.mesh.faces| == 6 * 48
    ensures ValidMesh(r.mesh) && AllShaped(r.mesh.faces)
    ensures r.height == height
  {
    var verts := HexTwelfth(m, flat, holeDia, shankDia, height);
    var faces := BuildFaceListQuads(1, 3, 8, false);
    BuildFaceListQuadsValid(1, 3, 8, false);
    FacesInWiden(faces, 1, 37, 0, 37);
    var sixth := MirrorAppend(Fragment(verts, faces), "y", 0.0);
    Head(SpinDup(sixth.verts, sixth.faces, 360.0, 6, m.rotZ), 0.0 - (0.0 - height))
  }
}
