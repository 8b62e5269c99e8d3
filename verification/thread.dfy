/**
  The threaded part of a bolt or nut. A thread is a stack of rings of
  DIV + 1 = 37 points; every ring descends by one pitch around the axis
  (a helix), and four rings make one turn of the thread form: crest,
  crest-to-root flank, root, root-to-crest flank. The zone builders return
  their rings, and the running height offset the next zone starts from.
 */
module Thread {
  import opened Geometry
  import opened MeshOps
  import opened Stitch

  /** Thread form as the user gives it: the pitch, and the crest and root widths in percent of the pitch. */
  datatype Form = Form(pitch: real, crestPercent: real, rootPercent: real)
  {
    /** A forward pitch with non-negative crest and root widths. */
    predicate Proper() {
      pitch > 0.0 && crestPercent >= 0.0 && rootPercent >= 0.0
    }

    /** Crest_Height and Root_Height, which every zone builder computes from the percentages. */
    function Heights(): Steps {
      Steps(pitch, pitch * crestPercent / 100.0, pitch * rootPercent / 100.0)
    }
  }

  /** The heights a turn descends by: the pitch, and the crest and root widths along the axis. */
  datatype Steps = Steps(pitch: real, crest: real, root: real)
  {
    /** The two flanks share what crest and root leave of the pitch. */
    function Flank(): real { (pitch - (crest + root)) / 2.0 }
    /** Height_Step: each of the 36 steps round a ring descends this much. */
    function HeightStep(): real { pitch / 36.0 }

    /** A forward pitch with non-negative crest and root widths. */
    predicate Proper() {
      pitch > 0.0 && crest >= 0.0 && root >= 0.0
    }

    /** Where ring k (0..3) of a turn that starts at `off` begins. */
    function RingStart(off: real, k: int): real {
      if k <= 0 then off
      else if k == 1 then off - crest
      else if k == 2 then off - crest - Flank()
      else off - crest - Flank() - root
    }

    /** The offset after one turn, subtracted ring by ring as the source does: exactly one pitch lower. */
    function AfterTurn(off: real): (r: real)
      ensures r == off - pitch
    {
      off - crest - Flank() - root - Flank()
    }
  }

  /** A proper form has proper steps, with the same pitch. */
  lemma StepsProper(f: Form)
    ensures f.Heights().pitch == f.pitch
    ensures f.Proper() ==> f.Heights().Proper()
  {
    if f.Proper() {
      assert f.pitch * f.crestPercent >= 0.0;
      assert f.pitch * f.rootPercent >= 0.0;
    }
  }

  /** Deg_Step = 360 / DIV: ring point i sits at 10 i degrees. */
  function RingAngle(i: int): real { (i as real) * 10.0 }

  /** Every ring of the stack has the 37 points of a full turn plus the closing point. */
  predicate Rings37(rows: seq<seq<Vertex>>) {
    forall k :: 0 <= k < |rows| ==> |rows[k]| == 37
  }

  lemma Rings37Concat(a: seq<seq<Vertex>>, b: seq<seq<Vertex>>)
    requires Rings37(a) && Rings37(b)
    ensures Rings37(a + b)
  {
  }

  /** The vertex list: the rings one after another. */
  function Flatten(rows: seq<seq<Vertex>>): (r: seq<Vertex>)
    ensures Rings37(rows) ==> |r| == 37 * |rows|
    decreases |rows|
  {
    if rows == [] then [] else Flatten(rows[..|rows| - 1]) + rows[|rows| - 1]
  }

  /** Flattening distributes over the concatenation of ring stacks. */
  lemma {:induction false} FlattenConcat(a: seq<seq<Vertex>>, b: seq<seq<Vertex>>)
    ensures Flatten(a + b) == Flatten(a) + Flatten(b)
    decreases |b|
  {
    if b != [] {
      var b' := b[..|b| - 1];
      assert (a + b)[..|a + b| - 1] == a + b';
      assert (a + b)[|a + b| - 1] == b[|b| - 1];
      FlattenConcat(a, b');
      assert Flatten(b) == Flatten(b') + b[|b| - 1];
    } else {
      assert a + b == a;
    }
  }

  /** A bound that holds for every ring point holds for every vertex of the flattened list. */
  lemma {:induction false} FlattenAbove(rows: seq<seq<Vertex>>, lo: real)
    requires Rings37(rows)
    requires forall k, i :: 0 <= k < |rows| && 0 <= i < 37 ==> rows[k][i].z >= lo
    ensures forall q :: 0 <= q < |Flatten(rows)| ==> Flatten(rows)[q].z >= lo
    decreases |rows|
  {
    if rows != [] {
      var init := rows[..|rows| - 1];
      assert forall k :: 0 <= k < |init| ==> init[k] == rows[k];
      FlattenAbove(init, lo);
      var last := rows[|rows| - 1];
      assert forall i :: 0 <= i < 37 ==> last[i].z >= lo;
      assert Flatten(rows) == Flatten(init) + last;
    }
  }

  // ---------------------------------------------------------------------------
  // Turns
  // ---------------------------------------------------------------------------

  /**
    `n` pitches laid end to end, added one at a time as the running offset
    drops by one pitch per turn.
   */
  function Pitches(n: nat, p: real): (r: real)
    ensures p >= 0.0 ==> r >= 0.0
    decreases n
  {
    if n == 0 then 0.0 else Pitches(n - 1, p) + p
  }

  /** `n` pitches laid end to end make n times the pitch. */
  lemma {:induction false} PitchesProduct(n: nat, p: real)
    ensures Pitches(n, p) == (n as real) * p
    decreases n
  {
    if n > 0 {
      PitchesProduct(n - 1, p);
      assert (n as real) * p == ((n - 1) as real) * p + p;
    }
  }

  /** The first few pitch counts, which the zones with a fixed number of turns use. */
  lemma PitchesSmall(p: real)
    ensures Pitches(1, p) == p && Pitches(2, p) == 2.0 * p
    ensures Pitches(3, p) == 3.0 * p && Pitches(4, p) == 4.0 * p
  {
    assert Pitches(1, p) == Pitches(0, p) + p;
    assert Pitches(2, p) == Pitches(1, p) + p;
    assert Pitches(3, p) == Pitches(2, p) + p;
    assert Pitches(4, p) == Pitches(3, p) + p;
  }

  /** A stack of rings and the height offset the next zone starts from. */
  datatype Zone = Zone(rows: seq<seq<Vertex>>, offset: real)

  /** Height of point i of ring k in a turn from `off`: one height step lower per point, then clamped. */
  function PointZ(f: Steps, off: real, clamp: real -> real, k: int, i: int): real {
    clamp(f.RingStart(off, k) - f.HeightStep() * (i as real))
  }

  /**
    Ring k of turn j, the turn starting at `off`: point i at angle 10 i, at
    the clamped height PointZ, on the radius the rule gives for turn j,
    ring k, point i and that height.
   */
  function Ring(m: Math, f: Steps, off: real, clamp: real -> real, rad: (int, int, int, real) -> real,
                j: int, k: int): (r: seq<Vertex>)
    ensures |r| == 37
    ensures forall i :: 0 <= i < 37 ==> r[i].z == PointZ(f, off, clamp, k, i)
  {
    seq(37, i requires 0 <= i < 37 =>
      var z := PointZ(f, off, clamp, k, i);
      Vertex(m.sinDeg(RingAngle(i)) * rad(j, k, i, z), m.cosDeg(RingAngle(i)) * rad(j, k, i, z), z))
  }

  /** Turn j: its four rings, crest, crest-to-root flank, root, root-to-crest flank. */
  function Turn(m: Math, f: Steps, off: real, clamp: real -> real, rad: (int, int, int, real) -> real, j: int): (r: seq<seq<Vertex>>)
    ensures |r| == 4 && Rings37(r)
    ensures forall k, i :: 0 <= k < 4 && 0 <= i < 37 ==> r[k][i].z == PointZ(f, off, clamp, k, i)
  {
    [Ring(m, f, off, clamp, rad, j, 0), Ring(m, f, off, clamp, rad, j, 1),
     Ring(m, f, off, clamp, rad, j, 2), Ring(m, f, off, clamp, rad, j, 3)]
  }

  /**
    `n` turns, each starting where the previous one left the running offset.
    The radius rule sees the turn number j, the ring k, the point i and the
    point's clamped height.
   */
  function Turns(m: Math, f: Steps, off: real, n: nat, clamp: real -> real,
                 rad: (int, int, int, real) -> real): (r: Zone)
    ensures |r.rows| == 4 * n && Rings37(r.rows)
    ensures r.offset == off - Pitches(n, f.pitch)
    decreases n
  {
    if n == 0 then Zone([], off)
    else
      var prev := Turns(m, f, off, n - 1, clamp, rad);
      Zone(prev.rows + Turn(m, f, prev.offset, clamp, rad, n - 1), f.AfterTurn(prev.offset))
  }

  /** Ring k of turn j (row 4 j + k) starts j pitches below the zone's start. */
  lemma {:induction false} TurnsPointZ(m: Math, f: Steps, off: real, n: nat, clamp: real -> real,
                                       rad: (int, int, int, real) -> real, j: nat, k: nat, i: nat)
    requires j < n && k < 4 && i < 37
    ensures Turns(m, f, off, n, clamp, rad).rows[4 * j + k][i].z
      == PointZ(f, off - Pitches(j, f.pitch), clamp, k, i)
    decreases n
  {
    var prev := Turns(m, f, off, n - 1, clamp, rad);
    var rows := Turns(m, f, off, n, clamp, rad).rows;
    var last := Turn(m, f, prev.offset, clamp, rad, n - 1);
    assert rows == prev.rows + last;
    var q := 4 * j + k;
    if j == n - 1 {
      assert q == |prev.rows| + k;
      assert rows[q] == last[k];
      assert prev.offset == off - Pitches(j, f.pitch);
    } else {
      assert q < |prev.rows|;
      assert rows[q] == prev.rows[q];
      TurnsPointZ(m, f, off, n - 1, clamp, rad, j, k, i);
    }
  }

  /** A clamp that keeps every height at or below `hi` keeps every ring of the turns there. */
  lemma TurnsBelow(m: Math, f: Steps, off: real, n: nat, clamp: real -> real,
                   rad: (int, int, int, real) -> real, hi: real)
    requires forall z :: clamp(z) <= hi
    ensures var rows := Turns(m, f, off, n, clamp, rad).rows;
      forall q, i :: 0 <= q < |rows| && 0 <= i < 37 ==> rows[q][i].z <= hi
  {
    var rows: seq<seq<Vertex>> := Turns(m, f, off, n, clamp, rad).rows;
    forall q: int, i: int | 0 <= q < |rows| && 0 <= i < 37
      ensures rows[q][i].z <= hi
    {
      TurnsPointZ(m, f, off, n, clamp, rad, q / 4, q % 4, i);
    }
  }

  /** A clamp that keeps every height at or above `lo` keeps every ring of the turns there. */
  lemma TurnsAbove(m: Math, f: Steps, off: real, n: nat, clamp: real -> real,
                   rad: (int, int, int, real) -> real, lo: real)
    requires forall z :: clamp(z) >= lo
    ensures var rows := Turns(m, f, off, n, clamp, rad).rows;
      forall q, i :: 0 <= q < |rows| && 0 <= i < 37 ==> rows[q][i].z >= lo
    ensures var flat := Flatten(Turns(m, f, off, n, clamp, rad).rows);
      forall q :: 0 <= q < |flat| ==> flat[q].z >= lo
  {
    var rows: seq<seq<Vertex>> := Turns(m, f, off, n, clamp, rad).rows;
    forall q: int, i: int | 0 <= q < |rows| && 0 <= i < 37
      ensures rows[q][i].z >= lo
    {
      TurnsPointZ(m, f, off, n, clamp, rad, q / 4, q % 4, i);
    }
    FlattenAbove(rows, lo);
  }

  // ---------------------------------------------------------------------------
  // Clamps and radius rules
  // ---------------------------------------------------------------------------

  /** `if z > cap: z = cap`. */
  function CapAt(cap: real): (c: real -> real)
    ensures forall z :: c(z) <= cap
  {
    z => if z > cap then cap else z
  }

  /** `z = max(z, floor)` or `if z < floor: z = floor`. */
  function FloorAt(floor: real): (c: real -> real)
    ensures forall z :: c(z) >= floor
  {
    z => if z < floor then floor else z
  }

  /** No clamp: the body rings descend freely. */
  function NoClamp(): real -> real {
    z => z
  }

  /** The crest rings (k = 0, 1) sit on the major radius, the root rings (k = 2, 3) on the minor. */
  function BodyRadius(inner: real, outer: real): (r: (int, int, int, real) -> real)
    ensures forall j, k, i, z :: k < 2 ==> r(j, k, i, z) == outer
    ensures forall j, k, i, z :: k >= 2 ==> r(j, k, i, z) == inner
  {
    (j, k, i, z) => if k < 2 then outer else inner
  }

  /**
    The radius at point i of a ring that closes in from `outer` to `inner`
    by one Rank, (outer - inner) / 36, per point: outer at the first point,
    inner at the last, and in between on the way.
   */
  function Closing(outer: real, inner: real, i: int): (r: real)
    ensures i == 0 ==> r == outer
    ensures i == 36 ==> r == inner
    ensures inner <= outer && 0 <= i <= 36 ==> inner <= r <= outer
  {
    RankStep(inner, outer, i);
    outer - (i as real) * ((outer - inner) / 36.0)
  }

  /** The radius at point i of a ring that opens out from `inner` to `outer` by one Rank per point. */
  function Opening(inner: real, outer: real, i: int): (r: real)
    ensures i == 0 ==> r == inner
    ensures i == 36 ==> r == outer
    ensures inner <= outer && 0 <= i <= 36 ==> inner <= r <= outer
  {
    RankStep(inner, outer, i);
    inner + (i as real) * ((outer - inner) / 36.0)
  }

  /** The product of two non-negative numbers is non-negative. */
  lemma NonnegProduct(a: real, b: real)
    requires 0.0 <= a && 0.0 <= b
    ensures 0.0 <= a * b
  {
  }

  /** Closing and Opening at every point of a ring at once. */
  lemma TapersBetween(inner: real, outer: real)
    ensures forall i :: Closing(outer, inner, i) == outer - (i as real) * ((outer - inner) / 36.0)
    ensures forall i :: Opening(inner, outer, i) == inner + (i as real) * ((outer - inner) / 36.0)
    ensures Closing(outer, inner, 36) == inner && Opening(inner, outer, 0) == inner
    ensures inner <= outer ==> forall i :: 0 <= i <= 36 ==>
      inner <= Closing(outer, inner, i) <= outer && inner <= Opening(inner, outer, i) <= outer
  {
  }

  /** i Ranks, for i from 0 to 36, cover between none and all of the gap between the radii. */
  lemma RankStep(inner: real, outer: real, i: int)
    ensures i == 36 ==> (i as real) * ((outer - inner) / 36.0) == outer - inner
    ensures inner <= outer && 0 <= i <= 36 ==> 0.0 <= (i as real) * ((outer - inner) / 36.0) <= outer - inner
  {
    var q := (outer - inner) / 36.0;
    assert outer - inner == 36.0 * q;
    if inner <= outer && 0 <= i <= 36 {
      NonnegProduct(i as real, q);
      NonnegProduct(36.0 - i as real, q);
      assert (36.0 - i as real) * q == 36.0 * q - (i as real) * q;
    }
  }

  // ---------------------------------------------------------------------------
  // Zones of the external thread
  // ---------------------------------------------------------------------------

  /**
    Create_Shank_Verts: a ring at the top of the shank and one where the
    taper to the thread begins. The taper is as long as the radius step
    divided by tan 31 degrees, or 0 when that exceeds the shank length.
   */
  method ShankZone(m: Math, startDia: real, outerDia: real, length: real, zLocation: real) returns (r: Zone)
    requires m.Sane()
    ensures |r.rows| == 2 && Rings37(r.rows)
    ensures r.offset == zLocation - length
    ensures forall i :: 0 <= i < 37 ==> r.rows[0][i].z == zLocation
    ensures length >= 0.0 ==> forall i :: 0 <= i < 37 ==> r.offset <= r.rows[1][i].z <= zLocation
  {
    var startRadius := startDia / 2.0;
    var outerRadius := outerDia / 2.0;
    var opp := if startRadius - outerRadius < 0.0 then outerRadius - startRadius else startRadius - outerRadius;
    var t := m.tanDeg(31.0);
    var taper0 := opp / t;
    assert taper0 >= 0.0 by {
      assert taper0 * t == opp;
    }
    var taper := if taper0 > length then 0.0 else taper0;
    var straight := length - taper;
    var rows := [Arc(m, 37, 10.0, startRadius, zLocation - 0.0), Arc(m, 37, 10.0, startRadius, (zLocation - straight) - 0.0)];
    r := Zone(rows, (zLocation - straight) - taper);
  }

  /**
    The start radius rule of Create_Thread_Start_Verts: the first turn on
    the major radius; in the second the root rings close in linearly from
    the major radius (one Rank per point); from the third on the root
    rings sit on the minor radius.
   */
  function StartRadius(inner: real, outer: real): (r: (int, int, int, real) -> real)
    ensures forall j, k, i, z :: (j == 0 || k < 2) ==> r(j, k, i, z) == outer
    ensures forall j, k, i, z :: j >= 2 && k >= 2 ==> r(j, k, i, z) == inner
    ensures inner <= outer ==> forall j, k, i, z :: 0 <= i <= 36 ==> inner <= r(j, k, i, z) <= outer
  {
    TapersBetween(inner, outer);
    (j, k, i, z) =>
      if j == 0 || k < 2 then outer
      else if j == 1 then Closing(outer, inner, i)
      else inner
  }

  /**
    Create_Thread_Start_Verts: three turns starting one pitch above the
    zone, clamped so nothing rises above it. The source writes them as one
    turn and then two, continuing the same running offset.
   */
  method StartZone(m: Math, innerDia: real, outerDia: real, f: Steps, zLocation: real) returns (r: Zone)
    ensures |r.rows| == 12 && Rings37(r.rows)
    ensures r.offset == zLocation - 2.0 * f.pitch
    ensures forall q, i :: 0 <= q < 12 && 0 <= i < 37 ==> r.rows[q][i].z <= zLocation
  {
    r := Turns(m, f, zLocation + f.pitch, 3, CapAt(zLocation), StartRadius(innerDia / 2.0, outerDia / 2.0));
    PitchesSmall(f.pitch);
    TurnsBelow(m, f, zLocation + f.pitch, 3, CapAt(zLocation), StartRadius(innerDia / 2.0, outerDia / 2.0), zLocation);
  }

  /** Python's int() on a float: truncation toward zero. */
  function Trunc(x: real): (r: int)
    ensures 0.0 <= x ==> r as real <= x < r as real + 1.0
    ensures x < 0.0 ==> r as real - 1.0 < x <= r as real
  {
    if x >= 0.0 then x.Floor else -((-x).Floor)
  }

  /** NUM_OF_START_THREADS and NUM_OF_END_THREADS of the body's turn count. */
  const StartThreads: real := 4.0
  const EndThreads: real := 3.0

  /** The number of whole body turns left after the start and end allowances (may be negative). */
  function BodyTurns(height: real, pitch: real): (r: int)
    requires pitch != 0.0
    ensures pitch > 0.0 && height >= 7.0 * pitch ==>
      0 <= r && (r as real) * pitch <= height - 7.0 * pitch < (r as real + 1.0) * pitch
    ensures pitch > 0.0 && height < 7.0 * pitch ==> r <= 0
  {
    var x := (height - (StartThreads * pitch + EndThreads * pitch)) / pitch;
    if pitch > 0.0 then WholePitches(height - 7.0 * pitch, pitch, Trunc(x) as real, Trunc(x) as real + 1.0); Trunc(x)
    else Trunc(x)
  }

  /** Multiplying through by a positive pitch: bounds on x / p become bounds on x. */
  lemma WholePitches(x: real, p: real, lo: real, hi: real)
    requires p > 0.0
    ensures lo <= x / p ==> lo * p <= x
    ensures x / p < hi ==> x < hi * p
    ensures x / p <= hi ==> x <= hi * p
  {
    var q := x / p;
    assert q * p == x;
    ScaleOrder(lo, q, p);
    ScaleOrder(q, hi, p);
  }

  /** Multiplying both sides by a positive number keeps the order. */
  lemma ScaleOrder(a: real, b: real, p: real)
    requires p > 0.0
    ensures a <= b ==> a * p <= b * p
    ensures a < b ==> a * p < b * p
  {
  }

  /**
    Create_Thread_Verts: `n` body turns (the count BodyTurns gives, through
    `range`), unclamped, crest rings on the major radius and root rings on
    the minor.
   */
  method BodyZone(m: Math, innerDia: real, outerDia: real, f: Steps, n: nat, zLocation: real) returns (r: Zone)
    ensures |r.rows| == 4 * n && Rings37(r.rows)
    ensures r.offset == zLocation - Pitches(n, f.pitch)
  {
    r := Turns(m, f, zLocation, n, NoClamp(), BodyRadius(innerDia / 2.0, outerDia / 2.0));
  }

  /**
    The end radius rule of Create_Thread_End_Verts: below the taper start
    (two pitches under the zone) the radius shrinks one for one with the
    depth; the root rings never exceed the minor radius.
   */
  function EndRadius(inner: real, outer: real, taperStart: real): (r: (int, int, int, real) -> real)
    ensures forall j, k, i, z :: k < 2 && z >= taperStart ==> r(j, k, i, z) == outer
    ensures forall j, k, i, z :: k < 2 && z < taperStart ==> outer - r(j, k, i, z) == taperStart - z
    ensures forall j, k, i, z :: k >= 2 ==> r(j, k, i, z) <= inner && r(j, k, i, z) <= outer - (taperStart - z)
    ensures forall j, k, i, z :: k >= 2 ==> r(j, k, i, z) == inner || r(j, k, i, z) == outer - (taperStart - z)
  {
    (j, k, i, z) =>
      if k < 2 then (if z < taperStart then outer - (taperStart - z) else outer)
      else (if outer - (taperStart - z) > inner then inner else outer - (taperStart - z))
  }

  /** The end zone's result: its rings, the offset, and the lowest height reached (at most 0). */
  datatype EndResult = EndResult(zone: Zone, lowest: real)

  /** The four tapering turns of Create_Thread_End_Verts, floored three pitches under the zone (Max_Height). */
  function EndTurns(m: Math, innerDia: real, outerDia: real, f: Steps, zLocation: real): (r: Zone)
    ensures |r.rows| == 16 && Rings37(r.rows) && r.offset == zLocation - 4.0 * f.pitch
  {
    var taperStart := zLocation - f.pitch - f.pitch;
    PitchesSmall(f.pitch);
    Turns(m, f, zLocation, 4, FloorAt(taperStart - f.pitch), EndRadius(innerDia / 2.0, outerDia / 2.0, taperStart))
  }

  /** The end turns: 16 rings, four pitches down, none below the floor. */
  lemma EndTurnsShape(m: Math, innerDia: real, outerDia: real, f: Steps, zLocation: real)
    ensures var z := EndTurns(m, innerDia, outerDia, f, zLocation);
      |z.rows| == 16 && Rings37(z.rows) && z.offset == zLocation - 4.0 * f.pitch
    ensures var z := EndTurns(m, innerDia, outerDia, f, zLocation);
      forall q, i :: 0 <= q < 16 && 0 <= i < 37 ==> z.rows[q][i].z >= zLocation - 3.0 * f.pitch
  {
    var taperStart := zLocation - f.pitch - f.pitch;
    PitchesSmall(f.pitch);
    TurnsAbove(m, f, zLocation, 4, FloorAt(taperStart - f.pitch), EndRadius(innerDia / 2.0, outerDia / 2.0, taperStart), taperStart - f.pitch);
  }

  /** For a proper form the last end point sits on the floor. */
  lemma EndTurnsLastPoint(m: Math, innerDia: real, outerDia: real, f: Steps, zLocation: real)
    requires f.Proper()
    ensures |EndTurns(m, innerDia, outerDia, f, zLocation).rows| == 16
    ensures EndTurns(m, innerDia, outerDia, f, zLocation).rows[15][36].z == zLocation - 3.0 * f.pitch
  {
    var taperStart := zLocation - f.pitch - f.pitch;
    var floor := taperStart - f.pitch;
    PitchesSmall(f.pitch);
    TurnsPointZ(m, f, zLocation, 4, FloorAt(floor), EndRadius(innerDia / 2.0, outerDia / 2.0, taperStart), 3, 3, 36);
    LastPointOnFloor(f, zLocation - Pitches(3, f.pitch), floor);
  }

  /** So Lowest_Z_Vert over the end turns stops at the floor (or at its start value 0). */
  lemma EndTurnsLowest(m: Math, innerDia: real, outerDia: real, f: Steps, zLocation: real)
    requires f.Proper()
    ensures LowestZ(Flatten(EndTurns(m, innerDia, outerDia, f, zLocation).rows))
      == (if zLocation - 3.0 * f.pitch < 0.0 then zLocation - 3.0 * f.pitch else 0.0)
  {
    EndTurnsShape(m, innerDia, outerDia, f, zLocation);
    EndTurnsLastPoint(m, innerDia, outerDia, f, zLocation);
    StackLowest(EndTurns(m, innerDia, outerDia, f, zLocation).rows, zLocation - 3.0 * f.pitch);
  }

  /**
    Create_Thread_End_Verts: four turns tapering off, no point lower than
    three pitches under the zone (Max_Height). For a proper form the last
    point sits on that floor, so the lowest height it reports is the floor
    (or 0, Lowest_Z_Vert's start value, if the floor is above 0).
   */
  method EndZone(m: Math, innerDia: real, outerDia: real, f: Steps, zLocation: real) returns (r: EndResult)
    ensures |r.zone.rows| == 16 && Rings37(r.zone.rows)
    ensures r.zone.offset == zLocation - 4.0 * f.pitch
    ensures forall q, i :: 0 <= q < 16 && 0 <= i < 37 ==> r.zone.rows[q][i].z >= zLocation - 3.0 * f.pitch
    ensures r.lowest == LowestZ(Flatten(r.zone.rows))
    ensures f.Proper() ==> r.lowest == (if zLocation - 3.0 * f.pitch < 0.0 then zLocation - 3.0 * f.pitch else 0.0)
  {
    var z := EndTurns(m, innerDia, outerDia, f, zLocation);
    EndTurnsShape(m, innerDia, outerDia, f, zLocation);
    if f.Proper() {
      EndTurnsLowest(m, innerDia, outerDia, f, zLocation);
    }
    r := EndResult(z, LowestZ(Flatten(z.rows)));
  }

  /** A stack whose heights are all at least `lo`, ending on `lo`: the lowest height is `lo`, or 0 if `lo` is above it. */
  lemma StackLowest(rows: seq<seq<Vertex>>, lo: real)
    requires |rows| >= 1 && Rings37(rows)
    requires forall q, i :: 0 <= q < |rows| && 0 <= i < 37 ==> rows[q][i].z >= lo
    requires rows[|rows| - 1][36].z == lo
    ensures LowestZ(Flatten(rows)) == (if lo < 0.0 then lo else 0.0)
  {
    FlattenAbove(rows, lo);
    var flat := Flatten(rows);
    assert flat == Flatten(rows[..|rows| - 1]) + rows[|rows| - 1];
    assert flat[|flat| - 1] == rows[|rows| - 1][36];
    LowestZFloor(flat, lo);
  }

  /** The last point of a turn lies at least one pitch below the turn's start, for a proper form. */
  lemma LastRingBottom(f: Steps, off: real)
    requires f.Proper()
    ensures f.RingStart(off, 3) - f.HeightStep() * 36.0 <= off
  {
  }

  /** A floored turn that starts at or below the floor ends on it. */
  lemma LastPointOnFloor(f: Steps, off: real, floor: real)
    requires f.Proper() && off <= floor
    ensures PointZ(f, off, FloorAt(floor), 3, 36) == floor
  {
    LastRingBottom(f, off);
  }

  // ---------------------------------------------------------------------------
  // Faces of a ring stack
  // ---------------------------------------------------------------------------

  /**
    The faces over a stack of `total` rings starting at index 0: the 36
    columns of quads of Build_Face_List_Quads(0, DIV, total - 1, flip),
    then, when `capped`, Fill_Ring_Face's downward fan over the last 36
    points.
   */
  function StackFaces(total: nat, flip: bool, capped: bool): (r: seq<Face>)
    requires total >= 1
    ensures |r| == 36 * (total - 1) + (if capped then 34 else 0)
    ensures AllShaped(r) && FacesIn(r, 0, 37 * total)
  {
    var quads := BuildFaceListQuads(0, 36, total - 1, flip);
    BuildFaceListQuadsValid(0, 36, total - 1, flip);
    assert Count(36) == 36 && Count(total - 1) == total - 1;
    assert (Count(36) + 1) * (Count(total - 1) + 1) == 37 * total;
    assert |quads| == 36 * (total - 1);
    if capped then
      var fan := FillRingFace(37 * total - 36, 36, true).value;
      FillRingFaceValid(37 * total - 36, 36, true);
      FacesInWiden(fan, 37 * total - 36, 37 * total, 0, 37 * total);
      FacesInConcat(quads, fan, 0, 37 * total);
      quads + fan
    else quads
  }

  // ---------------------------------------------------------------------------
  // The external thread
  // ---------------------------------------------------------------------------

  /** The rings of the external thread, and the lowest height its end zone reached. */
  datatype Stack = Stack(rows: seq<seq<Vertex>>, lowest: real)

  /**
    The four zones of Create_External_Thread stacked from z = 0 down, each
    starting at the offset the previous one returned; `n` body turns.
   */
  method ExternalStack(m: Math, shankDia: real, shankLength: real, innerDia: real, outerDia: real,
                       f: Steps, n: nat) returns (r: Stack)
    requires m.Sane()
    ensures |r.rows| == 30 + 4 * n && Rings37(r.rows)
    ensures r.lowest <= 0.0
    ensures f.Proper() && shankLength >= 0.0 ==>
      0.0 - r.lowest == shankLength + Pitches(n, f.pitch) + 5.0 * f.pitch
  {
    var shank := ShankZone(m, shankDia, outerDia, shankLength, 0.0);
    var start := StartZone(m, innerDia, outerDia, f, shank.offset);
    var body := BodyZone(m, innerDia, outerDia, f, n, start.offset);
    var end := EndZone(m, innerDia, outerDia, f, body.offset);
    Rings37Concat(shank.rows, start.rows);
    Rings37Concat(shank.rows + start.rows, body.rows);
    Rings37Concat(shank.rows + start.rows + body.rows, end.zone.rows);
    if f.Proper() && shankLength >= 0.0 {
      EndFloorDepth(f, shankLength, n, body.offset, end.lowest);
    }
    r := Stack(shank.rows + start.rows + body.rows + end.zone.rows, end.lowest);
  }

  /**
    The depth of the external thread's end floor below z = 0: the shank,
    the two pitches of the start zone, the body turns and the three
    pitches down to Max_Height.
   */
  lemma EndFloorDepth(f: Steps, shankLength: real, n: nat, bodyOffset: real, lowest: real)
    requires f.Proper() && shankLength >= 0.0
    requires bodyOffset == ((0.0 - shankLength) - 2.0 * f.pitch) - Pitches(n, f.pitch)
    requires lowest == (if bodyOffset - 3.0 * f.pitch < 0.0 then bodyOffset - 3.0 * f.pitch else 0.0)
    ensures 0.0 - lowest == shankLength + Pitches(n, f.pitch) + 5.0 * f.pitch
  {
  }

  /** Create_External_Thread's result: the mesh, the length it reports (minus the lowest height), the ring count. */
  datatype External = External(mesh: Fragment, length: real, rows: nat)

  /** The external thread's mesh for `n` body turns. */
  method ExternalMesh(m: Math, shankDia: real, shankLength: real, innerDia: real, outerDia: real,
                      f: Steps, n: nat) returns (r: External)
    requires m.Sane()
    ensures r.rows == 30 + 4 * n
    ensures |r.mesh.verts| == 37 * r.rows
    ensures |r.mesh.faces| == 36 * (r.rows - 1) + 34
    ensures ValidMesh(r.mesh) && AllShaped(r.mesh.faces)
    ensures r.length >= 0.0
    ensures f.Proper() && shankLength >= 0.0 ==> r.length == shankLength + Pitches(n, f.pitch) + 5.0 * f.pitch
  {
    var s := ExternalStack(m, shankDia, shankLength, innerDia, outerDia, f, n);
    r := External(Fragment(Flatten(s.rows), StackFaces(|s.rows|, false, true)), 0.0 - s.lowest, |s.rows|);
  }

  /**
    Create_External_Thread: the stacked rings joined by 36 columns of quads,
    the last ring closed with a downward-facing fan of 34 triangles. For a
    proper form and a non-negative shank the reported length is the shank
    plus five pitches (two of the start zone, three down to the end floor)
    plus one per body turn.
   */
  method ExternalThread(m: Math, shankDia: real, shankLength: real, innerDia: real, outerDia: real,
                        f: Form, length: real) returns (r: External)
    requires m.Sane() && f.pitch != 0.0
    ensures r.rows == 30 + 4 * Count(BodyTurns(length, f.pitch))
    ensures |r.mesh.verts| == 37 * r.rows
    ensures |r.mesh.faces| == 36 * (r.rows - 1) + 34
    ensures ValidMesh(r.mesh) && AllShaped(r.mesh.faces)
    ensures r.length >= 0.0
    ensures f.Proper() && shankLength >= 0.0 ==>
      r.length == shankLength + Pitches(Count(BodyTurns(length, f.pitch)), f.pitch) + 5.0 * f.pitch
  {
    StepsProper(f);
    r := ExternalMesh(m, shankDia, shankLength, innerDia, outerDia, f.Heights(), Count(BodyTurns(length, f.pitch)));
  }

  // ---------------------------------------------------------------------------
  // The internal thread (nut)
  // ---------------------------------------------------------------------------

  /** Python 3's round() on a float: to the nearest integer, ties to the even one. */
  function RoundHalfEven(x: real): (r: int)
    ensures (r as real) - 0.5 <= x <= (r as real) + 0.5
    ensures (x == (r as real) - 0.5 || x == (r as real) + 0.5) ==> r % 2 == 0
  {
    var fl := x.Floor;
    var frac := x - fl as real;
    if frac < 0.5 then fl
    else if frac > 0.5 then fl + 1
    else if fl % 2 == 0 then fl
    else fl + 1
  }

  /** The nut's body turn count: the height less one pitch, in pitches, rounded. */
  function NutTurns(height: real, pitch: real): (r: int)
    requires pitch != 0.0
    ensures pitch > 0.0 ==> (r as real - 0.5) * pitch <= height - pitch <= (r as real + 0.5) * pitch
  {
    var x := (height - pitch) / pitch;
    if pitch > 0.0 then WholePitches(height - pitch, pitch, RoundHalfEven(x) as real - 0.5, RoundHalfEven(x) as real + 0.5); RoundHalfEven(x)
    else RoundHalfEven(x)
  }

  /** Create_Internal_Thread_Start_Verts' radii: crest rings on the major radius, root rings closing in by one Rank per point. */
  function InternalStartRadius(inner: real, outer: real): (r: (int, int, int, real) -> real)
    ensures forall j, k, i, z :: k < 2 ==> r(j, k, i, z) == outer
    ensures forall j, k, z :: r(j, k, 36, z) == (if k < 2 then outer else inner)
    ensures inner <= outer ==> forall j, k, i, z :: 0 <= i <= 36 ==> inner <= r(j, k, i, z) <= outer
  {
    TapersBetween(inner, outer);
    (j, k, i, z) => if k < 2 then outer else Closing(outer, inner, i)
  }

  /**
    Create_Internal_Thread_End_Verts' radii: the first turn's root rings
    open out from the minor radius by one Rank per point, the second
    turn's root rings (j > Num with Num = 0) sit on the major radius.
   */
  function InternalEndRadius(inner: real, outer: real): (r: (int, int, int, real) -> real)
    ensures forall j, k, i, z :: (k < 2 || j != 0) ==> r(j, k, i, z) == outer
    ensures forall k, z :: k >= 2 ==> r(0, k, 0, z) == inner
    ensures inner <= outer ==> forall j, k, i, z :: 0 <= i <= 36 ==> inner <= r(j, k, i, z) <= outer
  {
    TapersBetween(inner, outer);
    (j, k, i, z) =>
      if k < 2 then outer
      else if j == 0 then Opening(inner, outer, i)
      else outer
  }

  /**
    Create_Internal_Thread_Start_Verts: one turn from one pitch above the
    offset, capped at the offset (Height_Start); the running offset comes
    back to where it started.
   */
  method InternalStartZone(m: Math, inner: real, outer: real, f: Steps, off: real) returns (r: Zone)
    ensures |r.rows| == 4 && Rings37(r.rows)
    ensures r.offset == off
    ensures forall q, i :: 0 <= q < 4 && 0 <= i < 37 ==> r.rows[q][i].z <= off
  {
    var top := off + f.pitch;
    var heightStart := top - f.pitch;
    PitchesSmall(f.pitch);
    TurnsBelow(m, f, top, 1, CapAt(heightStart), InternalStartRadius(inner, outer), heightStart);
    r := Turns(m, f, top, 1, CapAt(heightStart), InternalStartRadius(inner, outer));
  }

  /**
    Create_Internal_Thread_End_Verts: two turns from the offset, floored one
    pitch below it (Height_End); that floor, not the running offset, is what
    it hands back.
   */
  method InternalEndZone(m: Math, inner: real, outer: real, f: Steps, off: real) returns (r: Zone)
    ensures |r.rows| == 8 && Rings37(r.rows)
    ensures r.offset == off - f.pitch
    ensures forall q, i :: 0 <= q < 8 && 0 <= i < 37 ==> r.rows[q][i].z >= r.offset
  {
    var heightEnd := off - f.pitch;
    PitchesSmall(f.pitch);
    TurnsAbove(m, f, off, 2, FloorAt(heightEnd), InternalEndRadius(inner, outer), heightEnd);
    r := Zone(Turns(m, f, off, 2, FloorAt(heightEnd), InternalEndRadius(inner, outer)).rows, heightEnd);
  }

  /** Create_Internal_Thread's result: the mesh, the nut height it reports, and the ring count. */
  datatype Internal = Internal(mesh: Fragment, height: real, rows: nat)

  /** The internal thread's mesh for `n` body turns. */
  method InternalMesh(m: Math, innerDia: real, outerDia: real, f: Steps, n: nat) returns (r: Internal)
    ensures r.rows == 12 + 4 * n
    ensures |r.mesh.verts| == 37 * r.rows && |r.mesh.faces| == 36 * (r.rows - 1)
    ensures ValidMesh(r.mesh) && AllShaped(r.mesh.faces)
    ensures r.height == Pitches(n, f.pitch) + f.pitch
  {
    var inner, outer := innerDia / 2.0, outerDia / 2.0;
    var start := InternalStartZone(m, inner, outer, f, 0.0);
    var body := BodyZone(m, innerDia, outerDia, f, n, start.offset);
    var end := InternalEndZone(m, inner, outer, f, body.offset);
    Rings37Concat(start.rows, body.rows);
    Rings37Concat(start.rows + body.rows, end.rows);
    var rows := start.rows + body.rows + end.rows;
    r := Internal(Fragment(Flatten(rows), StackFaces(|rows|, true, false)), 0.0 - end.offset, |rows|);
  }

  /**
    Create_Internal_Thread: the start turn, the body turns and the two end
    turns stacked from z = 0 down. The quads are wound the other way (the
    surface faces inward) and there is no end cap. The height reported is
    the depth of the end floor: one pitch per body turn and one more.
   */
  method InternalThread(m: Math, innerDia: real, outerDia: real, f: Form, height: real) returns (r: Internal)
    requires f.pitch != 0.0
    ensures r.rows == 12 + 4 * Count(NutTurns(height, f.pitch))
    ensures |r.mesh.verts| == 37 * r.rows && |r.mesh.faces| == 36 * (r.rows - 1)
    ensures ValidMesh(r.mesh) && AllShaped(r.mesh.faces)
    ensures r.height == Pitches(Count(NutTurns(height, f.pitch)), f.pitch) + f.pitch
  {
    r := InternalMesh(m, innerDia, outerDia, f.Heights(), Count(NutTurns(height, f.pitch)));
  }
}
