/**
  The drive recesses cut into a screw head: the hexagon socket (Allen) and
  the cross (Phillips). Each builder returns the recess mesh and the
  diameter of the hole it needs in the head.
 */
module DriveBits {
  import opened Geometry
  import opened MeshOps
  import opened Stitch

  /** A recess mesh and the diameter of the hole the head leaves for it. */
  datatype Bit = Bit(mesh: Fragment, diameter: real)

  // ---------------------------------------------------------------------------
  // Allen
  // ---------------------------------------------------------------------------

  /**
    The fan from the half outer ring (0..18) onto the three inner hexagon
    corners (19..22) used by Allen_Fill, in the source's order.
   */
  const AllenLookup: seq<Face> := [
    [19, 1, 0], [19, 2, 1], [19, 3, 2], [19, 20, 3],
    [20, 4, 3], [20, 5, 4], [20, 6, 5], [20, 7, 6], [20, 8, 7], [20, 9, 8],
    [20, 21, 9],
    [21, 10, 9], [21, 11, 10], [21, 12, 11], [21, 13, 12], [21, 14, 13], [21, 15, 14],
    [21, 22, 15], [22, 16, 15], [22, 17, 16], [22, 18, 17]]

  /** A lookup face placed at `offset`, wound the other way when `flip` is set. */
  function PlaceFace(f: Face, offset: int, flip: bool): (r: Face)
    ensures |r| == |f|
  {
    if flip then Reverse(ShiftFace(f, offset)) else ShiftFace(f, offset)
  }

  /** Every face of a lookup table, placed. */
  function PlaceAll(table: seq<Face>, offset: int, flip: bool): (r: seq<Face>)
    ensures |r| == |table|
    ensures forall j :: 0 <= j < |table| ==> r[j] == PlaceFace(table[j], offset, flip)
  {
    seq(|table|, j requires 0 <= j < |table| => PlaceFace(table[j], offset, flip))
  }

  /** Placing a well-shaped table keeps its faces well shaped and moves their range by `offset`. */
  lemma PlaceAllValid(table: seq<Face>, offset: int, flip: bool, n: int)
    requires AllShaped(table) && FacesIn(table, 0, n)
    ensures AllShaped(PlaceAll(table, offset, flip))
    ensures FacesIn(PlaceAll(table, offset, flip), offset, offset + n)
  {
    var r := PlaceAll(table, offset, flip);
    forall j | 0 <= j < |table|
      ensures WellShaped(r[j]) && IndicesIn(r[j], offset, offset + n)
    {
      assert WellShaped(table[j]) && IndicesIn(table[j], 0, n);
    }
  }

  /** A flipped placement is the plain placement with every winding reversed. */
  lemma PlaceAllFlip(table: seq<Face>, offset: int)
    ensures forall j :: 0 <= j < |table| ==>
      PlaceAll(table, offset, true)[j] == Reverse(PlaceAll(table, offset, false)[j])
  {
  }

  lemma AllenLookupShape()
    ensures AllShaped(AllenLookup) && FacesIn(AllenLookup, 0, 23)
  {
  }

  /** Allen_Fill: 21 triangles covering the 23 vertices from `offset`. */
  function AllenFill(offset: int, flip: bool): (r: seq<Face>)
    ensures |r| == 21
    ensures AllShaped(r) && FacesIn(r, offset, offset + 23)
    ensures forall j :: 0 <= j < 21 ==> |r[j]| == 3
  {
    AllenLookupShape();
    PlaceAllValid(AllenLookup, offset, flip, 23);
    PlaceAll(AllenLookup, offset, flip)
  }

  /** Flipping the Allen fill reverses each triangle in place. */
  lemma AllenFillFlip(offset: int)
    ensures forall j :: 0 <= j < 21 ==> AllenFill(offset, true)[j] == Reverse(AllenFill(offset, false)[j])
  {
    PlaceAllFlip(AllenLookup, offset);
  }

  /** Circumradius of a hexagon with the given distance across flats. */
  function FlatRadius(m: Math, flat: real): (r: real)
    requires m.Sane()
    ensures r * m.cosDeg(30.0) == flat / 2.0
  {
    (flat / 2.0) / m.cosDeg(30.0)
  }

  /** Allen_Bit_Dia: the hole diameter for a socket of the given size across flats. */
  function AllenBitDia(m: Math, flat: real): (r: real)
    requires m.Sane()
    ensures r * m.cosDeg(30.0) == flat * 1.05
  {
    var fr := FlatRadius(m, flat);
    assert (fr * 1.05) * 2.0 * m.cosDeg(30.0) == (fr * m.cosDeg(30.0)) * 2.1;
    (fr * 1.05) * 2.0
  }

  /** Allen_Bit_Dia_To_Flat: the size across flats that needs a hole of diameter `dia`. */
  function AllenBitDiaToFlat(m: Math, dia: real): (r: real)
    ensures r * 1.05 == dia * m.cosDeg(30.0)
  {
    ((dia / 2.0) / 1.05 * m.cosDeg(30.0)) * 2.0
  }

  /** The two conversions are inverse to each other, in both directions. */
  lemma AllenDiaRoundTrip(m: Math, flat: real, dia: real)
    requires m.Sane()
    ensures AllenBitDiaToFlat(m, AllenBitDia(m, flat)) == flat
    ensures AllenBitDia(m, AllenBitDiaToFlat(m, dia)) == dia
  {
    var c := m.cosDeg(30.0);
    var fr := FlatRadius(m, flat);
    assert fr * c == flat / 2.0;
    assert AllenBitDiaToFlat(m, AllenBitDia(m, flat)) == fr * c * 2.0;
    var f' := AllenBitDiaToFlat(m, dia);
    var fr' := FlatRadius(m, f');
    assert fr' * c == (dia / 2.0) / 1.05 * c;
    assert fr' == (dia / 2.0) / 1.05;
  }

  /**
    The half socket of Create_Allen_Bit before the mirror: half of the
    outer ring (19 points, every 10 degrees), half of the hexagon just below
    it and half of the hexagon at the bottom of the socket; the fan, the
    socket wall and the bottom cap.
   */
  function AllenHalf(m: Math, flat: real, height: real): (r: Fragment)
    requires m.Sane()
    ensures |r.verts| == 27 && |r.faces| == 26
    ensures ValidMesh(r) && AllShaped(r.faces)
    ensures r.verts[0].z == 0.0 && r.verts[23].z == -height
  {
    var flatRadius := FlatRadius(m, flat);
    var outerRadius := flatRadius * 1.05;
    var outerRadiusHeight := flatRadius * (0.1 / 5.77);
    var outside := Arc(m, 19, 10.0, outerRadius, 0.0);
    var inside := Arc(m, 4, 60.0, flatRadius, 0.0 - outerRadiusHeight);
    var bottom := Arc(m, 4, 60.0, flatRadius, 0.0 - height);
    var verts := outside + inside + bottom;
    var fan := AllenFill(0, false);
    var wall := BuildFaceListQuads(19, 3, 1, true);
    var cap := FillRingFace(23, 4, false).value;
    BuildFaceListQuadsValid(19, 3, 1, true);
    FillRingFaceValid(23, 4, false);
    var faces := fan + wall + cap;
    assert AllShaped(faces);
    assert FacesIn(faces, 0, 27) by {
      FacesInWiden(fan, 0, 23, 0, 27);
      FacesInWiden(wall, 19, 27, 0, 27);
      FacesInWiden(cap, 23, 27, 0, 27);
    }
    Fragment(verts, faces)
  }

  /**
    Create_Allen_Bit: the half socket mirrored across the x = 0 plane; the
    hole diameter is that of the outer ring.
   */
  function CreateAllenBit(m: Math, flat: real, height: real): (r: Bit)
    requires m.Sane()
    ensures |r.mesh.verts| == 54 && |r.mesh.faces| == 52
    ensures ValidMesh(r.mesh) && AllShaped(r.mesh.faces)
    ensures r.diameter == AllenBitDia(m, flat)
    ensures r.mesh.verts[0].z == 0.0 && r.mesh.verts[23].z == -height
    ensures forall i :: 0 <= i < 27 ==> r.mesh.verts[27 + i] == MirrorVertex(r.mesh.verts[i], "y", 0.0)
  {
    var half := AllenHalf(m, flat, height);
    assert forall i :: 0 <= i < 27 ==> MirrorAppend(half, "y", 0.0).verts[27 + i] == MirrorVertex(MirrorAppend(half, "y", 0.0).verts[i], "y", 0.0) by {
      forall i | 0 <= i < 27 {
        MirrorAppendVertAt(half, "y", 0.0, i);
      }
    }
    Bit(MirrorAppend(half, "y", 0.0), (FlatRadius(m, flat) * 1.05) * 2.0)
  }

  // ---------------------------------------------------------------------------
  // Phillips
  // ---------------------------------------------------------------------------

  /** One quarter of the cross recess: 15 triangles and 3 quads over 19 vertices. */
  const PhillipsLookup: seq<Face> := [
    [0, 1, 10], [1, 11, 10], [1, 2, 11], [2, 12, 11],
    [2, 3, 12], [3, 4, 12], [4, 5, 12], [5, 6, 12], [6, 7, 12],
    [7, 13, 12], [7, 8, 13], [8, 14, 13], [8, 9, 14],
    [10, 11, 16, 15], [11, 12, 16], [12, 13, 16], [13, 14, 17, 16], [15, 16, 17, 18]]

  lemma PhillipsLookupShape()
    ensures AllShaped(PhillipsLookup) && FacesIn(PhillipsLookup, 0, 19)
    ensures |set j | 0 <= j < 18 && |PhillipsLookup[j]| == 4| == 3
  {
    assert (set j | 0 <= j < 18 && |PhillipsLookup[j]| == 4) == {13, 16, 17};
  }

  /** Phillips_Fill: the quarter recess placed at `offset`; FLIP reverses triangles and quads alike. */
  function PhillipsFill(offset: int, flip: bool): (r: seq<Face>)
    ensures |r| == 18
    ensures AllShaped(r) && FacesIn(r, offset, offset + 19)
  {
    PhillipsLookupShape();
    PlaceAllValid(PhillipsLookup, offset, flip, 19);
    PlaceAll(PhillipsLookup, offset, flip)
  }

  lemma PhillipsFillFlip(offset: int)
    ensures forall j :: 0 <= j < 18 ==> PhillipsFill(offset, true)[j] == Reverse(PhillipsFill(offset, false)[j])
  {
    PlaceAllFlip(PhillipsLookup, offset);
  }

  /** The 19 vertices of one quarter of the cross recess. */
  function PhillipsQuarter(m: Math, flatDia: real, flatWidth: real, height: real): (r: seq<Vertex>)
    ensures |r| == 19
  {
    var flatRadius := flatDia * 0.5;
    var outerRadius := flatRadius * 1.05;
    var flatHalf := flatWidth / 2.0;
    Arc(m, 10, 10.0, outerRadius, 0.0)
    + [Vertex(0.0, flatRadius, 0.0), Vertex(flatHalf, flatRadius, 0.0), Vertex(flatHalf, flatHalf, 0.0),
       Vertex(flatRadius, flatHalf, 0.0), Vertex(flatRadius, 0.0, 0.0)]
    + [Vertex(0.0, flatHalf, 0.0 - height), Vertex(flatHalf, flatHalf, 0.0 - height),
       Vertex(flatHalf, 0.0, 0.0 - height), Vertex(0.0, 0.0, 0.0 - height)]
  }

  /**
    Create_Phillips_Bit: one quarter (10 outer ring points every 10 degrees,
    5 points of the cross outline, 4 at the recess bottom), filled with
    downward winding and spun four times about z.
   */
  function CreatePhillipsBit(m: Math, flatDia: real, flatWidth: real, height: real): (r: Bit)
    ensures |r.mesh.verts| == 76 && |r.mesh.faces| == 72
    ensures ValidMesh(r.mesh) && AllShaped(r.mesh.faces)
    ensures r.diameter == flatDia * 1.05
    ensures r.mesh.verts[..19] == RotMesh(PhillipsQuarter(m, flatDia, flatWidth, height), 0.0, m.rotZ)
  {
    var verts := PhillipsQuarter(m, flatDia, flatWidth, height);
    var faces := PhillipsFill(0, true);
    var spun := SpinDup(verts, faces, 360.0, 4, m.rotZ);
    SpinCopyVerts(verts, faces, 360.0 / 4.0, 4, m.rotZ, 0);
    assert CopyAngle(360.0 / 4.0, 0) == 0.0;
    Bit(spun, flatDia * 0.5 * 1.05 * 2.0)
  }
}
