/**
  Putting a bolt or a nut together from its parts (Bolt_Mesh, Nut_Mesh)
  and handing the result to the host (Create_New_Mesh). The scene settings
  the operator reads are one record; the choice lists are enumerations.
 */
module Assembly {
  import opened Geometry
  import opened MeshOps
  import opened Heads
  import opened DriveBits
  import opened Thread
  import opened Nut
  import HostPack
  import Weld

  /** bf_Model_Type: what to build. */
  datatype ModelType = BoltModel | NutModel
  /** bf_Head_Type. */
  datatype HeadType = HexHead | CapHead | DomeHead | PanHead
  /** bf_Bit_Type: the drive recess in the head. */
  datatype BitType = NoBit | AllenBit | PhillipsBit
  /** bf_Nut_Type: a plain hex nut, or one with a nylon insert on top. */
  datatype NutType = PlainNut | LockNut

  /** The scene properties the builders read (bf_...). */
  datatype Scene = Scene(
    model: ModelType, head: HeadType, bit: BitType, nut: NutType,
    allenFlat: real, allenDepth: real,
    phillipsDia: real, phillipsDepth: real,
    hexHeadFlat: real, hexHeadHeight: real,
    capHeadDia: real, capHeadHeight: real,
    domeHeadDia: real, panHeadDia: real,
    shankDia: real, shankLength: real,
    minorDia: real, majorDia: real, pitch: real, threadLength: real,
    crestPercent: real, rootPercent: real,
    hexNutFlat: real, hexNutHeight: real)
  {
    /** The thread form both thread builders are given. */
    function Form(): Form { Thread.Form(pitch, crestPercent, rootPercent) }
  }

  /** Move_Verts_Up_Z on a fragment: the faces are untouched. */
  function Raise(f: Fragment, d: real): (r: Fragment)
    ensures |r.verts| == |f.verts| && r.faces == f.faces
    ensures forall i :: 0 <= i < |r.verts| ==> r.verts[i].z - f.verts[i].z == d
    ensures ValidMesh(f) ==> ValidMesh(r)
  {
    Fragment(MoveVertsUpZ(f.verts, d), f.faces)
  }

  /** Vertex `i` of an appended part sits `|acc.verts|` places into the result. */
  lemma AppendVertAt(acc: Fragment, part: Fragment, i: nat, idx: nat)
    requires i < |part.verts| && idx == |acc.verts| + i
    ensures idx < |Append(acc, part).verts| && Append(acc, part).verts[idx] == part.verts[i]
  {
  }

  // ---------------------------------------------------------------------------
  // Bolt
  // ---------------------------------------------------------------------------

  /**
    The Allen size across flats actually used: on a pan head, a socket
    whose hole would be wider than Max_Pan_Bit_Dia is cut down to 1.05
    times the size that exactly fits.
   */
  function AllenFlatFor(m: Math, sc: Scene): (r: real)
    requires m.Sane()
    ensures r != sc.allenFlat ==>
      sc.bit == AllenBit && sc.head == PanHead && AllenBitDia(m, sc.allenFlat) > MaxPanBitDia(m, sc.panHeadDia)
    ensures AllenBitDia(m, r) == AllenBitDia(m, sc.allenFlat) || AllenBitDia(m, r) == MaxPanBitDia(m, sc.panHeadDia) * 1.05
  {
    var max := MaxPanBitDia(m, sc.panHeadDia);
    AllenBitDiaScales(m, AllenBitDiaToFlat(m, max), 1.05);
    AllenDiaRoundTrip(m, sc.allenFlat, max);
    if sc.bit == AllenBit && sc.head == PanHead && AllenBitDia(m, sc.allenFlat) > max
    then AllenBitDiaToFlat(m, max) * 1.05
    else sc.allenFlat
  }

  /** The hole diameter of a socket grows in proportion to its size across flats. */
  lemma AllenBitDiaScales(m: Math, flat: real, s: real)
    requires m.Sane()
    ensures AllenBitDia(m, flat * s) == AllenBitDia(m, flat) * s
  {
    var c := m.cosDeg(30.0);
    assert FlatRadius(m, flat * s) * c == FlatRadius(m, flat) * c * s;
    assert FlatRadius(m, flat * s) == FlatRadius(m, flat) * s;
  }

  /**
    On a pan head the resize leaves the socket's hole either as asked (when
    it already fits) or at exactly 1.05 times the widest hole the head
    takes; every other combination keeps the size asked for.
   */
  lemma PanAllenResize(m: Math, sc: Scene)
    requires m.Sane()
    ensures var dia := AllenBitDia(m, AllenFlatFor(m, sc));
      var max := MaxPanBitDia(m, sc.panHeadDia);
      if sc.bit == AllenBit && sc.head == PanHead then
        (AllenBitDia(m, sc.allenFlat) <= max ==> AllenFlatFor(m, sc) == sc.allenFlat)
        && (AllenBitDia(m, sc.allenFlat) > max ==> dia == max * 1.05)
      else AllenFlatFor(m, sc) == sc.allenFlat
  {
    var max := MaxPanBitDia(m, sc.panHeadDia);
    if sc.bit == AllenBit && sc.head == PanHead && AllenBitDia(m, sc.allenFlat) > max {
      AllenBitDiaScales(m, AllenBitDiaToFlat(m, max), 1.05);
      AllenDiaRoundTrip(m, sc.allenFlat, max);
    }
  }

  /** The drive recess: none (hole diameter 0.001), an Allen socket or a Phillips cross. */
  function BoltBit(m: Math, sc: Scene): (r: Bit)
    requires m.Sane()
    ensures ValidMesh(r.mesh) && AllShaped(r.mesh.faces)
    ensures sc.bit == NoBit ==> r.mesh == Fragment([], []) && r.diameter == 0.001
    ensures sc.bit == AllenBit ==> |r.mesh.verts| == 54 && r.diameter == AllenBitDia(m, AllenFlatFor(m, sc))
    ensures sc.bit == PhillipsBit ==> |r.mesh.verts| == 76 && r.diameter == sc.phillipsDia * 1.05
  {
    match sc.bit
    case NoBit => Bit(Fragment([], []), 0.001)
    case AllenBit => CreateAllenBit(m, AllenFlatFor(m, sc), sc.allenDepth)
    case PhillipsBit => CreatePhillipsBit(m, sc.phillipsDia, sc.phillipsDia * (0.5 / 1.82), sc.phillipsDepth)
  }

  /**
    The head, with the recess's hole through it. Dome and pan heads are
    given the hex head height, radii of 1 and face offset 0; the cap head's
    two roundings are 1/19 of its diameter. The height each builder reports
    is what the bit and head are raised by.
   */
  function BoltHead(m: Math, sc: Scene, bitDia: real): (r: Head)
    ensures ValidMesh(r.mesh) && AllShaped(r.mesh.faces)
  {
    match sc.head
    case HexHead => CreateHexHead(m, sc.hexHeadFlat, bitDia, sc.shankDia, sc.hexHeadHeight)
    case CapHead =>
      CreateCapHead(m, bitDia, sc.capHeadDia, sc.shankDia, sc.capHeadHeight,
                    sc.capHeadDia * (1.0 / 19.0), sc.capHeadDia * (1.0 / 19.0))
    case DomeHead => CreateDomeHead(m, bitDia, sc.domeHeadDia, sc.shankDia, sc.hexHeadHeight, 1.0, 1.0, 0)
    case PanHead => CreatePanHead(m, bitDia, sc.panHeadDia, sc.shankDia, sc.hexHeadHeight, 1.0, 1.0, 0)
  }

  /**
    The height each head reports, which the bit and the head are raised by:
    the hex head's height as set, the cap's height plus its top rounding,
    and the dome's and pan's fixed fractions of their radius.
   */
  lemma BoltHeadHeight(m: Math, sc: Scene, bitDia: real)
    ensures var h := BoltHead(m, sc, bitDia).height;
      match sc.head
      case HexHead => h == sc.hexHeadHeight
      case CapHead => h == sc.capHeadHeight + sc.capHeadDia * (1.0 / 19.0)
      case DomeHead => h == sc.domeHeadDia * 0.5 * 0.64
      case PanHead => h == sc.panHeadDia * 0.5 * 0.59
  {
    match sc.head
    case HexHead =>
    case CapHead =>
    case DomeHead =>
    case PanHead =>
  }

  /**
    Bolt_Mesh: the recess and the head raised by the head's height, then
    the external thread, all lifted by the length the thread reports so
    the thread's end floor lands on z = 0. `lift` is that length.
   */
  method BoltMesh(m: Math, sc: Scene) returns (r: Fragment, lift: real)
    requires m.Sane() && sc.pitch != 0.0
    ensures ValidMesh(r) && AllShaped(r.faces)
    ensures var nb := |BoltBit(m, sc).mesh.verts|;
      var nh := |BoltHead(m, sc, BoltBit(m, sc).diameter).mesh.verts|;
      |r.verts| == nb + nh + 37 * (30 + 4 * Count(BodyTurns(sc.threadLength, sc.pitch)))
    ensures lift >= 0.0
    ensures sc.Form().Proper() && sc.shankLength >= 0.0 ==>
      lift == sc.shankLength + Pitches(Count(BodyTurns(sc.threadLength, sc.pitch)), sc.pitch) + 5.0 * sc.pitch
    ensures var bit := BoltBit(m, sc).mesh.verts;
      var hh := BoltHead(m, sc, BoltBit(m, sc).diameter).height;
      forall i :: 0 <= i < |bit| ==> r.verts[i].z == (bit[i].z + hh) + lift
    ensures var nb := |BoltBit(m, sc).mesh.verts|;
      var head := BoltHead(m, sc, BoltBit(m, sc).diameter);
      forall i :: 0 <= i < |head.mesh.verts| ==> r.verts[nb + i].z == (head.mesh.verts[i].z + head.height) + lift
  {
    var bit := BoltBit(m, sc);
    var head := BoltHead(m, sc, bit.diameter);
    var thread := ExternalThread(m, sc.shankDia, sc.shankLength, sc.minorDia, sc.majorDia, sc.Form(), sc.threadLength);
    var raisedBit := Raise(bit.mesh, head.height);
    var raisedHead := Raise(head.mesh, head.height);
    var acc := Append(Append(raisedBit, raisedHead), Raise(thread.mesh, 0.0));
    r := Raise(acc, thread.length);
    lift := thread.length;
    var nb := |bit.mesh.verts|;
    var first := Append(raisedBit, raisedHead);
    forall i | 0 <= i < nb
      ensures r.verts[i].z == (bit.mesh.verts[i].z + head.height) + lift
    {
      assert acc.verts[i] == first.verts[i] == raisedBit.verts[i];
    }
    forall i | 0 <= i < |head.mesh.verts|
      ensures r.verts[nb + i].z == (head.mesh.verts[i].z + head.height) + lift
    {
      AppendVertAt(raisedBit, raisedHead, i, nb + i);
      assert acc.verts[nb + i] == first.verts[nb + i];
    }
  }

  // ---------------------------------------------------------------------------
  // Nut
  // ---------------------------------------------------------------------------

  /** The cosines of the nylon head's rounding angles lie in [-1, 1], as true cosines do. */
  predicate NylonCosines(m: Math) {
    forall k :: 0 <= k < 10 ==> m.cosDeg(SweepAngle(180.0, -10.0, k)) >= -1.0
  }

  /**
    The lock-nut branch of Nut_Mesh: the nylon head and then the nylon ring
    appended at height `z`, both sized from the nut's top bevel radius.
    `low` is the level the head reports, which is the ring's bottom face
    when the rounding's cosines are true cosines.
   */
  method AddNylonInsert(m: Math, acc: Fragment, radius: real, z: real) returns (r: Fragment, low: real)
    requires ValidMesh(acc) && AllShaped(acc.faces)
    ensures ValidMesh(r) && AllShaped(r.faces)
    ensures |r.verts| == |acc.verts| + 37 * 13 + 37 * 4 && r.verts[..|acc.verts|] == acc.verts
    ensures NylonCosines(m) && radius >= 0.0 && z <= 0.0 ==> low == z - Part(radius, 2.0)
  {
    var head := NylonHead(m, radius, z);
    r := AppendBoth(acc, head.mesh, NylonPart(m, radius, z).mesh);
    low := head.level;
    LockNutLevel(m, radius, z);
  }

  /** The lowest point of a lock nut is the bottom of its nylon head. */
  lemma LockNutLevel(m: Math, radius: real, z: real)
    ensures NylonCosines(m) && radius >= 0.0 && z <= 0.0 ==> NylonHead(m, radius, z).level == z - Part(radius, 2.0)
  {
    if NylonCosines(m) && radius >= 0.0 && z <= 0.0 {
      NylonHeadLevel(m, radius, z);
    }
  }

  /** Two parts appended in turn: the accumulated mesh stays in front. */
  function AppendBoth(acc: Fragment, a: Fragment, b: Fragment): (r: Fragment)
    requires ValidMesh(acc) && ValidMesh(a) && ValidMesh(b)
    requires AllShaped(acc.faces) && AllShaped(a.faces) && AllShaped(b.faces)
    ensures ValidMesh(r) && AllShaped(r.faces)
    ensures |r.verts| == |acc.verts| + |a.verts| + |b.verts| && r.verts[..|acc.verts|] == acc.verts
  {
    var mid := Append(acc, a);
    assert Append(mid, b).verts[..|acc.verts|] == mid.verts[..|acc.verts|];
    Append(mid, b)
  }

  /**
    Nut_Mesh: the internal thread, the hex nut built to the height the
    thread reports, and for a lock nut the nylon head and ring placed at
    the bottom of the thread and sized from the nut's top bevel radius.
    Everything is lifted by `lift`, minus the running lowest height: the
    thread's height for a plain nut, the nylon head's level for a lock nut.
   */
  method NutMesh(m: Math, sc: Scene) returns (r: Fragment, lift: real)
    requires sc.pitch != 0.0
    ensures ValidMesh(r) && AllShaped(r.faces)
    ensures var rows := 12 + 4 * Count(NutTurns(sc.hexNutHeight, sc.pitch));
      |r.verts| == 37 * rows + 6 * 84 + (if sc.nut == LockNut then 37 * 13 + 37 * 4 else 0)
    ensures var h := Pitches(Count(NutTurns(sc.hexNutHeight, sc.pitch)), sc.pitch) + sc.pitch;
      sc.nut == PlainNut ==> lift == h
    ensures var h := Pitches(Count(NutTurns(sc.hexNutHeight, sc.pitch)), sc.pitch) + sc.pitch;
      var radius := sc.hexNutFlat / 2.0 - 0.05;
      sc.nut == LockNut && NylonCosines(m) && radius >= 0.0 && h >= 0.0 ==>
        lift == h + Part(radius, 2.0)
  {
    var thread := InternalThread(m, sc.minorDia, sc.majorDia, sc.Form(), sc.hexNutHeight);
    var nut := CreateHexNut(m, sc.hexNutFlat, sc.majorDia, thread.height);
    var acc := Append(thread.mesh, nut.mesh);
    var lowZ := 0.0 - thread.height;
    if sc.nut == LockNut {
      acc, lowZ := AddNylonInsert(m, acc, nut.radius, 0.0 - thread.height);
    }
    r := Raise(acc, 0.0 - lowZ);
    lift := 0.0 - lowZ;
  }

  // ---------------------------------------------------------------------------
  // Handing the mesh to the host
  // ---------------------------------------------------------------------------

  /**
    Create_New_Mesh: build the bolt or the nut, weld its doubles (vertices
    with equal `key`), scale by GLOBAL_SCALE and pack for the host. `built`
    is the mesh before welding.
   */
  method CreateNewMesh<K(==,!new)>(m: Math, sc: Scene, key: Vertex -> K) returns (built: Fragment, r: HostPack.HostMesh)
    requires m.Sane() && sc.pitch != 0.0
    ensures ValidMesh(built) && AllShaped(built.faces)
    ensures r.faceCount <= |built.faces|
    ensures |r.coords| == 3 * r.vertCount && |r.slots| == 4 * r.faceCount
    ensures forall k :: 0 <= k < |r.slots| ==> 0 <= r.slots[k] < r.vertCount
    ensures HostPack.RepackList(r.coords) == ScaleMeshVerts(Weld.RemoveDoubles(built.verts, built.faces, key).verts, HostPack.GlobalScale)
    ensures r.vertCount == |Weld.RemoveDoubles(built.verts, built.faces, key).verts|
    ensures r.faceCount == |Weld.RemoveDoubles(built.verts, built.faces, key).faces|
    ensures forall j :: 0 <= j < r.faceCount ==>
      r.slots[4 * j..4 * j + 4] == HostPack.FaceSlots(Weld.RemoveDoubles(built.verts, built.faces, key).faces[j])
  {
    var lift;
    if sc.model == BoltModel {
      built, lift := BoltMesh(m, sc);
    } else {
      built, lift := NutMesh(m, sc);
    }
    r := HostPack.CreateNewMesh(built, key);
  }
}
