/**
  The nut parts: the hexagon body of a nut (add_Hex_Nut) and the two rings
  of a lock nut's nylon insert (add_Nylon_Head, add_Nylon_Part). The
  internal thread they sit on is built by the Thread module.
 */
module Nut {
  import opened Geometry
  import opened MeshOps
  import opened Stitch
  import opened Heads

  /** Python's running `min(Lowest_Z_Vert, z)` over the heights `zs`, starting from `start`. */
  function RunningMin(start: real, zs: seq<real>): (r: real)
    ensures r <= start
    ensures forall i :: 0 <= i < |zs| ==> r <= zs[i]
    ensures r == start || exists i :: 0 <= i < |zs| && zs[i] == r
    decreases |zs|
  {
    if zs == [] then start
    else
      var prev := RunningMin(start, zs[..|zs| - 1]);
      var z := zs[|zs| - 1];
      assert forall i :: 0 <= i < |zs| - 1 ==> zs[..|zs| - 1][i] == zs[i];
      if z < prev then z else prev
  }

  // ---------------------------------------------------------------------------
  // Hex nut
  // ---------------------------------------------------------------------------

  /** The hexagon body of a nut, the radius of its top bevel, and the height it was built for. */
  datatype HexNut = HexNut(mesh: Fragment, radius: real, height: real)

  /** TopBevelRadius: half the width across flats less a fixed 0.05. */
  function NutBevelRadius(flat: real): real { flat / 2.0 - 0.05 }

  /** The depth at which a flat meets the top bevel, at 0, 10, 20 and 30 degrees. */
  function NutDrop(m: Math, flat: real, angle: real): (r: real)
    ensures r == m.sqrt(DistanceSquared(BevelPoint(m, flat / 2.0 - 0.05, angle), FlatPoint(m, flat / 2.0, angle)))
  {
    FlatDrop(m, flat / 2.0, NutBevelRadius(flat), angle)
  }

  /**
    One twelfth of the nut's top half: the centre, then five rows of four
    points at 0, 10, 20 and 30 degrees (hole edge, top bevel, the flats
    where they meet the bevel, the flats at the deepest of those points, the
    flats at half the nut height).
   */
  function NutTwelfth(m: Math, flat: real, holeDia: real, height: real): (r: seq<Vertex>)
    ensures |r| == 21
    ensures r[0] == Vertex(0.0, 0.0, 0.0)
    ensures forall i :: 1 <= i < 9 ==> r[i].z == 0.0
    ensures forall i :: 9 <= i < 13 ==> r[i].z == 0.0 - NutDrop(m, flat, ((i - 9) as real) * 10.0)
    ensures forall i :: 13 <= i < 17 ==> r[i].z == 0.0 - NutDrop(m, flat, 30.0)
    ensures forall i :: 17 <= i < 21 ==> r[i].z == 0.0 - height / 2.0
  {
    var halfFlat := flat / 2.0;
    var lowestPoint := 0.0 - NutDrop(m, flat, 30.0);
    var flats := Sweep(4, 0.0, 10.0, a => Vertex(m.tanDeg(a) * halfFlat, halfFlat, 0.0 - NutDrop(m, flat, a)));
    assert forall k :: 0 <= k < 4 ==> SweepAngle(0.0, 10.0, k) == (k as real) * 10.0;
    [Vertex(0.0, 0.0, 0.0)]
    + Arc(m, 4, 10.0, holeDia * 0.5, 0.0)
    + Arc(m, 4, 10.0, NutBevelRadius(flat), 0.0)
    + flats
    + FlatRow(m, halfFlat, lowestPoint)
    + FlatRow(m, halfFlat, 0.0 - height / 2.0)
  }

  /** The heights the source feeds to its running minimum, in order. */
  function NutDepths(m: Math, flat: real, height: real): seq<real> {
    [0.0 - NutDrop(m, flat, 0.0), 0.0 - NutDrop(m, flat, 10.0), 0.0 - NutDrop(m, flat, 20.0),
     0.0 - NutDrop(m, flat, 30.0), 0.0 - NutDrop(m, flat, 30.0), 0.0 - height / 2.0]
  }

  /** Lowest_Z_Vert of add_Hex_Nut: the plane the top half is mirrored about. */
  function NutLowest(m: Math, flat: real, height: real): real {
    RunningMin(0.0, NutDepths(m, flat, height))
  }

  /**
    The running minimum the source keeps is the lowest height of the whole
    twelfth (the points it skips are at z = 0, where the minimum starts).
   */
  lemma NutLowestIsLowestZ(m: Math, flat: real, holeDia: real, height: real)
    ensures NutLowest(m, flat, height) == LowestZ(NutTwelfth(m, flat, holeDia, height))
  {
    var idx := [9, 10, 11, 12, 13, 17];
    NutDepthsOccur(m, flat, holeDia, height, idx);
    NutTwelfthAboveOrListed(m, flat, holeDia, height);
    RunningMinIsLowestZ(NutDepths(m, flat, height), NutTwelfth(m, flat, holeDia, height), idx);
  }

  /** Each height fed to the running minimum is the height of twelfth vertex `idx[i]`. */
  lemma NutDepthsOccur(m: Math, flat: real, holeDia: real, height: real, idx: seq<nat>)
    requires idx == [9, 10, 11, 12, 13, 17]
    ensures var t := NutTwelfth(m, flat, holeDia, height);
      var zs := NutDepths(m, flat, height);
      forall i :: 0 <= i < |zs| ==> idx[i] < |t| && zs[i] == t[idx[i]].z
  {
    var t := NutTwelfth(m, flat, holeDia, height);
    assert t[9].z == 0.0 - NutDrop(m, flat, 0.0);
    assert t[10].z == 0.0 - NutDrop(m, flat, 10.0);
    assert t[11].z == 0.0 - NutDrop(m, flat, 20.0);
    assert t[12].z == 0.0 - NutDrop(m, flat, 30.0);
  }

  /** Every vertex of the twelfth is at or above 0 or at one of the heights fed to the running minimum. */
  lemma NutTwelfthAboveOrListed(m: Math, flat: real, holeDia: real, height: real)
    ensures var t := NutTwelfth(m, flat, holeDia, height);
      forall j :: 0 <= j < |t| ==> t[j].z >= 0.0 || t[j].z in NutDepths(m, flat, height)
  {
    var t := NutTwelfth(m, flat, holeDia, height);
    var zs := NutDepths(m, flat, height);
    forall j | 0 <= j < |t|
      ensures t[j].z >= 0.0 || t[j].z in zs
    {
      if j == 0 {
      } else if j < 9 {
      } else if j < 13 {
        assert t[j].z == zs[j - 9];
      } else if j < 17 {
        assert t[j].z == zs[4];
      } else {
        assert t[j].z == zs[5];
      }
    }
  }

  /**
    A running minimum from 0 over heights that all occur in `verts` (vertex
    `idx[i]` for height `i`), where every other vertex lies at or above 0,
    is the lowest height of `verts`.
   */
  lemma RunningMinIsLowestZ(zs: seq<real>, verts: seq<Vertex>, idx: seq<nat>)
    requires |idx| == |zs|
    requires forall i :: 0 <= i < |zs| ==> idx[i] < |verts| && zs[i] == verts[idx[i]].z
    requires forall j :: 0 <= j < |verts| ==> verts[j].z >= 0.0 || verts[j].z in zs
    ensures RunningMin(0.0, zs) == LowestZ(verts)
  {
    var lo := RunningMin(0.0, zs);
    var lz := LowestZ(verts);
    if lo != 0.0 {
      var i :| 0 <= i < |zs| && zs[i] == lo;
      assert lz <= verts[idx[i]].z;
    }
    if lz != 0.0 {
      var j :| 0 <= j < |verts| && verts[j].z == lz;
      assert lz in zs;
    }
  }

  /**
    A twelfth mirrored about the height `lowest` (Mirror_Verts_Faces on
    'z') and the result mirrored across x = 0 (on 'y'): the four quarters
    of a sixth.
   */
  function MirrorSixth(twelfth: Fragment, lowest: real): (r: Fragment)
    ensures |r.verts| == 4 * |twelfth.verts| && |r.faces| == 4 * |twelfth.faces|
    ensures ValidMesh(twelfth) ==> ValidMesh(r)
    ensures AllShaped(twelfth.faces) ==> AllShaped(r.faces)
  {
    MirrorAppend(MirrorAppend(twelfth, "z", lowest), "y", 0.0)
  }

  /**
    Quarter by quarter, the four images of twelfth vertex `i` in the sixth:
    the vertex itself, its reflection in z about `lowest` (height h becomes
    2 * lowest - h), and both of those with x negated.
   */
  lemma MirrorSixthQuarters(twelfth: Fragment, lowest: real, i: nat)
    requires i < |twelfth.verts|
    ensures var t := twelfth.verts;
      var v := MirrorSixth(twelfth, lowest).verts;
      var n := |t|;
      v[i] == t[i]
      && v[n + i] == Vertex(t[i].x, t[i].y, 2.0 * lowest - t[i].z)
      && v[2 * n + i] == Vertex(0.0 - t[i].x, t[i].y, t[i].z)
      && v[3 * n + i] == Vertex(0.0 - t[i].x, t[i].y, 2.0 * lowest - t[i].z)
  {
    var n := |twelfth.verts|;
    var low := MirrorAppend(twelfth, "z", lowest);
    MirrorAppendVertAt(twelfth, "z", lowest, i);
    MirrorAppendVertAt(low, "y", 0.0, i);
    MirrorAppendVertAt(low, "y", 0.0, n + i);
    assert 2 * n + (n + i) == 3 * n + i;
  }

  /** One sixth of the nut: the twelfth's 3 x 4 quads, mirrored about the lowest height and then across x = 0. */
  function NutSixth(m: Math, flat: real, holeDia: real, height: real): (r: Fragment)
    ensures |r.verts| == 84 && |r.faces| == 48
    ensures ValidMesh(r) && AllShaped(r.faces)
  {
    NutTwelfthFaces();
    MirrorSixth(Fragment(NutTwelfth(m, flat, holeDia, height), BuildFaceListQuads(1, 3, 4, false)), NutLowest(m, flat, height))
  }

  /** The twelfth's 3 x 4 quads are well shaped and index its 21 vertices. */
  lemma NutTwelfthFaces()
    ensures var faces := BuildFaceListQuads(1, 3, 4, false);
      |faces| == 12 && AllShaped(faces) && FacesIn(faces, 0, 21)
  {
    var faces := BuildFaceListQuads(1, 3, 4, false);
    BuildFaceListQuadsValid(1, 3, 4, false);
    FacesInWiden(faces, 1, 21, 0, 21);
  }

  /**
    Mirrored about a height no vertex of the twelfth is below, the upper
    quarters of the sixth stay at or above that height and the lower
    quarters at or below it.
   */
  lemma MirrorSixthSeparates(twelfth: Fragment, lowest: real)
    requires forall i :: 0 <= i < |twelfth.verts| ==> twelfth.verts[i].z >= lowest
    ensures var n := |twelfth.verts|;
      var v := MirrorSixth(twelfth, lowest).verts;
      forall q :: 0 <= q < 4 * n ==>
        (q < n || 2 * n <= q < 3 * n ==> v[q].z >= lowest)
        && (n <= q < 2 * n || 3 * n <= q ==> v[q].z <= lowest)
  {
    var n := |twelfth.verts|;
    var t := twelfth.verts;
    var v := MirrorSixth(twelfth, lowest).verts;
    forall q | 0 <= q < 4 * n
      ensures q < n || 2 * n <= q < 3 * n ==> v[q].z >= lowest
      ensures n <= q < 2 * n || 3 * n <= q ==> v[q].z <= lowest
    {
      if q < n {
        MirrorSixthQuarters(twelfth, lowest, q);
      } else if q < 2 * n {
        MirrorSixthQuarters(twelfth, lowest, q - n);
      } else if q < 3 * n {
        MirrorSixthQuarters(twelfth, lowest, q - 2 * n);
      } else {
        MirrorSixthQuarters(twelfth, lowest, q - 3 * n);
      }
    }
  }

  /**
    The sixth of the nut has its upper quarters (vertices 0-20 and 42-62)
    at or above the mirror plane and the lower ones at or below it: the
    plane is the lowest height of the twelfth.
   */
  lemma NutSixthHalves(m: Math, flat: real, holeDia: real, height: real)
    ensures var v := NutSixth(m, flat, holeDia, height).verts;
      var lowest := NutLowest(m, flat, height);
      forall q :: 0 <= q < 84 ==>
        (q < 21 || 42 <= q < 63 ==> v[q].z >= lowest)
        && (21 <= q < 42 || 63 <= q ==> v[q].z <= lowest)
  {
    var t := NutTwelfth(m, flat, holeDia, height);
    NutLowestIsLowestZ(m, flat, holeDia, height);
    MirrorSixthSeparates(Fragment(t, BuildFaceListQuads(1, 3, 4, false)), NutLowest(m, flat, height));
  }

  /**
    add_Hex_Nut: the sixth spun six times about z. The nut reports its top
    bevel radius (the lock nut's insert is sized from it) and the height it
    was given.
   */
  function CreateHexNut(m: Math, flat: real, holeDia: real, height: real): (r: HexNut)
    ensures |r.mesh.verts| == 6 * 84 && |r.mesh.faces| == 6 * 48
    ensures ValidMesh(r.mesh) && AllShaped(r.mesh.faces)
    ensures r.radius == flat / 2.0 - 0.05 && r.height == height
  {
    var sixth := NutSixth(m, flat, holeDia, height);
    HexNut(SpinDup(sixth.verts, sixth.faces, 360.0, 6, m.rotZ), NutBevelRadius(flat), height)
  }

  /**
    The spin that finishes the nut: vertex `i` of copy `k` of a sixth spun
    through 360 degrees in six divisions is vertex `i` of the sixth rotated
    by 60 * k degrees about z.
   */
  lemma SixWayVertAt(m: Math, sixth: Fragment, k: nat, i: nat, idx: nat)
    requires k < 6 && i < |sixth.verts| && idx == k * |sixth.verts| + i
    ensures idx < |SpinDup(sixth.verts, sixth.faces, 360.0, 6, m.rotZ).verts|
    ensures SpinDup(sixth.verts, sixth.faces, 360.0, 6, m.rotZ).verts[idx] == m.rotZ(sixth.verts[i], 60.0 * (k as real))
  {
    SpinDupVertAt(sixth.verts, sixth.faces, 360.0, 6, m.rotZ, k, i, idx);
    SixthAngle(k);
  }

  /** The k-th of six equal steps round a full turn is 60 * k degrees. */
  lemma SixthAngle(k: nat)
    ensures CopyAngle(360.0 / (6 as real), k) == 60.0 * (k as real)
  {
  }

  // ---------------------------------------------------------------------------
  // Nylon insert
  // ---------------------------------------------------------------------------

  /** A ring of the nylon insert and the height figure its builder returns. */
  datatype Insert = Insert(mesh: Fragment, level: real)

  /** The insert's proportions, all fractions of the nut's top bevel radius over 4.75. */
  function Part(radius: real, share: real): real { radius * (share / 4.75) }

  /** The nylon head's 13 profile points: two on the inner hole, ten rounding the outer edge, one on top. */
  function NylonHeadProfile(m: Math, radius: real, zLocation: real): (r: seq<Vertex>)
    ensures |r| == 13
    ensures r[1].z == zLocation - Part(radius, 2.0)
    ensures forall k :: 2 <= k < 12 ==>
      r[k].z == (zLocation - Part(radius, 2.0) + Part(radius, 0.5)) + m.cosDeg(SweepAngle(180.0, -10.0, k - 2)) * Part(radius, 0.5)
    ensures r[12].z == zLocation
  {
    var innerHole := radius - Part(radius, 1.25);
    var edge := Part(radius, 0.4);
    var rad1 := Part(radius, 0.5);
    var overall := Part(radius, 2.0);
    [Vertex(innerHole, 0.0, (zLocation - overall) + edge), Vertex(innerHole, 0.0, zLocation - overall)]
    + Sweep(10, 180.0, -10.0, a => Vertex((radius - rad1) + m.sinDeg(a) * rad1, 0.0, ((zLocation - overall) + rad1) + m.cosDeg(a) * rad1))
    + [Vertex(radius - 0.0, 0.0, zLocation)]
  }

  /**
    The heights add_Nylon_Head feeds to its running minimum. In the rounding
    loop the source records the bare `cos * RAD1`, not the point's height.
   */
  function NylonHeadDepths(m: Math, radius: real, zLocation: real): seq<real> {
    var rad1 := Part(radius, 0.5);
    var overall := Part(radius, 2.0);
    [(zLocation - overall) + Part(radius, 0.4), zLocation - overall]
    + seq(10, k requires 0 <= k < 10 => m.cosDeg(SweepAngle(180.0, -10.0, k)) * rad1)
    + [zLocation]
  }

  /**
    add_Nylon_Head: the profile revolved with FLIP = 1 (raised by 0); the
    level is the source's Lowest_Z_Vert.
   */
  function NylonHead(m: Math, radius: real, zLocation: real): (r: Insert)
    ensures |r.mesh.verts| == 37 * 13 && |r.mesh.faces| == 36 * 12
    ensures ValidMesh(r.mesh) && AllShaped(r.mesh.faces)
    ensures r.level == RunningMin(0.0, NylonHeadDepths(m, radius, zLocation))
    ensures r.mesh.verts[36 * 13..] == NylonHeadProfile(m, radius, zLocation)
  {
    var rev := Revolve(m, NylonHeadProfile(m, radius, zLocation), 0, true);
    var raised := MoveVertsUpZ(rev.verts, 0.0);
    MoveUpZero(rev.verts);
    Insert(Fragment(raised, rev.faces), RunningMin(0.0, NylonHeadDepths(m, radius, zLocation)))
  }

  /** Raising by zero changes nothing. */
  lemma MoveUpZero(verts: seq<Vertex>)
    ensures MoveVertsUpZ(verts, 0.0) == verts
  {
    var r := MoveVertsUpZ(verts, 0.0);
    assert forall i :: 0 <= i < |r| ==> r[i] == verts[i];
  }

  /**
    Placed at or below z = 0 with a non-negative radius, and with cosines of
    the rounding angles no smaller than -1, the head's level is exactly the
    height of its bottom inner point, the lowest point of the profile: the
    bare cosines the loop records never undercut it.
   */
  lemma NylonHeadLevel(m: Math, radius: real, zLocation: real)
    requires radius >= 0.0 && zLocation <= 0.0
    requires forall k :: 0 <= k < 10 ==> m.cosDeg(SweepAngle(180.0, -10.0, k)) >= -1.0
    ensures NylonHead(m, radius, zLocation).level == NylonHeadProfile(m, radius, zLocation)[1].z
    ensures forall k :: 0 <= k < 13 ==> NylonHeadProfile(m, radius, zLocation)[1].z <= NylonHeadProfile(m, radius, zLocation)[k].z
  {
    NylonDepthsFloor(m, radius, zLocation);
    RunningMinAttained(0.0, NylonHeadDepths(m, radius, zLocation), 1);
    NylonProfileFloor(m, radius, zLocation);
  }

  /** A running minimum that starts at or above a height every entry reaches, and that entry `i0` attains, is that entry. */
  lemma RunningMinAttained(start: real, zs: seq<real>, i0: nat)
    requires i0 < |zs| && zs[i0] <= start
    requires forall i :: 0 <= i < |zs| ==> zs[i0] <= zs[i]
    ensures RunningMin(start, zs) == zs[i0]
  {
    var lo := RunningMin(start, zs);
    if lo != start {
      var i :| 0 <= i < |zs| && zs[i] == lo;
    }
  }

  /** Every height the nylon head's loop records is at or above its bottom inner point, which it records second. */
  lemma NylonDepthsFloor(m: Math, radius: real, zLocation: real)
    requires radius >= 0.0 && zLocation <= 0.0
    requires forall k :: 0 <= k < 10 ==> m.cosDeg(SweepAngle(180.0, -10.0, k)) >= -1.0
    ensures var zs := NylonHeadDepths(m, radius, zLocation);
      |zs| == 13 && zs[1] == NylonHeadProfile(m, radius, zLocation)[1].z && zs[1] <= 0.0
      && forall i :: 0 <= i < |zs| ==> zs[1] <= zs[i]
  {
    var zs := NylonHeadDepths(m, radius, zLocation);
    var rad1 := Part(radius, 0.5);
    var bottom := zLocation - Part(radius, 2.0);
    assert rad1 >= 0.0 && Part(radius, 2.0) >= rad1 && Part(radius, 0.4) >= 0.0;
    forall i | 0 <= i < |zs|
      ensures bottom <= zs[i]
    {
      if i == 0 {
        assert zs[0] == bottom + Part(radius, 0.4);
      } else if i == 1 {
        assert zs[1] == bottom;
      } else if i < 12 {
        var c := m.cosDeg(SweepAngle(180.0, -10.0, i - 2));
        assert zs[i] == c * rad1;
        CosScaled(c, rad1);
        assert bottom <= 0.0 - rad1;
      } else {
        assert zs[12] == zLocation;
      }
    }
  }

  /** The bottom inner point is the lowest point of the nylon head's profile. */
  lemma NylonProfileFloor(m: Math, radius: real, zLocation: real)
    requires radius >= 0.0 && zLocation <= 0.0
    requires forall k :: 0 <= k < 10 ==> m.cosDeg(SweepAngle(180.0, -10.0, k)) >= -1.0
    ensures var p := NylonHeadProfile(m, radius, zLocation);
      forall k :: 0 <= k < 13 ==> p[1].z <= p[k].z
  {
    var p := NylonHeadProfile(m, radius, zLocation);
    var rad1 := Part(radius, 0.5);
    assert rad1 >= 0.0 && Part(radius, 2.0) >= 0.0 && Part(radius, 0.4) >= 0.0;
    forall k | 0 <= k < 13
      ensures p[1].z <= p[k].z
    {
      if 2 <= k < 12 {
        CosScaled(m.cosDeg(SweepAngle(180.0, -10.0, k - 2)), rad1);
      }
    }
  }

  /** A cosine no smaller than -1, scaled by a non-negative radius, is no smaller than minus the radius. */
  lemma CosScaled(c: real, rad: real)
    requires c >= -1.0 && rad >= 0.0
    ensures c * rad >= 0.0 - rad
  {
    assert (c + 1.0) * rad >= 0.0;
  }

  /** The nylon ring's four profile points: a rectangle from the ring's inner edge to the insert's hole. */
  function NylonPartProfile(radius: real, zLocation: real): (r: seq<Vertex>)
    ensures |r| == 4
  {
    var innerHole := radius - Part(radius, 1.5);
    var edge := Part(radius, 0.4);
    var thickness := Part(radius, 2.0) - edge;
    var partHole := Part(radius, 2.5);
    [Vertex(innerHole + edge, 0.0, zLocation), Vertex(partHole, 0.0, zLocation),
     Vertex(partHole, 0.0, zLocation - thickness), Vertex(innerHole + edge, 0.0, zLocation - thickness)]
  }

  /** add_Nylon_Part: the rectangle revolved with FLIP = 1; the level is the depth 0 - Lowest_Z_Vert. */
  function NylonPart(m: Math, radius: real, zLocation: real): (r: Insert)
    ensures |r.mesh.verts| == 37 * 4 && |r.mesh.faces| == 36 * 3
    ensures ValidMesh(r.mesh) && AllShaped(r.mesh.faces)
    ensures r.level >= 0.0
    ensures r.level == 0.0 - LowestZ(NylonPartProfile(radius, zLocation))
  {
    var profile := NylonPartProfile(radius, zLocation);
    var zs := [profile[0].z, profile[1].z, profile[2].z, profile[3].z];
    var lowest := RunningMin(0.0, zs);
    PartLowest(profile, zs);
    Insert(Revolve(m, profile, 0, true), 0.0 - lowest)
  }

  /** The running minimum over a profile's heights is its lowest height. */
  lemma PartLowest(profile: seq<Vertex>, zs: seq<real>)
    requires |profile| == |zs| && forall i :: 0 <= i < |zs| ==> zs[i] == profile[i].z
    ensures RunningMin(0.0, zs) == LowestZ(profile)
  {
    var lo := RunningMin(0.0, zs);
    var lz := LowestZ(profile);
    if lo != 0.0 {
      var i :| 0 <= i < |zs| && zs[i] == lo;
      assert lz <= profile[i].z;
    }
    if lz != 0.0 {
      var i :| 0 <= i < |profile| && profile[i].z == lz;
      assert lo <= zs[i];
    }
  }

  /** With a non-negative radius the ring is `thickness` deep below its placement, and the depth is never below that. */
  lemma NylonPartDepth(m: Math, radius: real, zLocation: real)
    requires radius >= 0.0 && zLocation <= 0.0
    ensures NylonPart(m, radius, zLocation).level == Part(radius, 1.6) - zLocation
  {
    var p := NylonPartProfile(radius, zLocation);
    var t := Part(radius, 2.0) - Part(radius, 0.4);
    assert t == Part(radius, 1.6) && t >= 0.0;
    assert LowestZ(p) <= p[2].z;
    LowestZFloor(p, zLocation - t);
  }
}
