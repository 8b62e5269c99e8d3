# Bolt factory, sqorus and DirectX naming — a Dafny model

This project models three Blender add-ons:

- **The bolt factory's mesh kernel.** These builders produce a bolt or a nut as a list of vertices and faces:
  - the heads: hex, cap, dome and pan;
  - the drive recesses: Allen socket and Phillips cross;
  - the external thread of a bolt and the internal thread of a nut;
  - the hexagon nut body and the nylon insert of a lock nut;
  - the mesh utilities they share: copying, spinning, mirroring and raising fragments, quad grids, ring fans;
  - the weld pass that merges doubled vertices, and the packing of the result for the host.
- **The sqorus operator.** It builds a 3 x 3 "square torus" of 32 vertices and 32 quads.
- **Three helpers of the DirectX (.x) exporter.** They make an object name legal, count the face corners of a mesh, and give the export path its `.x` suffix.

Vertices are `Geometry.Vertex` records of reals, and faces are sequences of indices. A builder returns a `Fragment`: a vertex list plus faces that index it.

The transcendental functions the source takes from Python's `math` module are the fields of a `Geometry.Math` record. So is the host's rotation matrix about z. Every builder takes that record as a parameter.

Only two facts about these functions are assumed, by `Math.Sane()`: cos 30° > 0 and tan 31° > 0. The source divides by both.

What is proved, in outline:

- **Shape.** Every builder returns a valid mesh: every face index addresses one of its vertices, and every face is a triangle or a quad with distinct corners. The vertex and face counts are exact.
- **Reference definitions.** The quad grids, the ring fans, the spins, the mirrors and the weld each equal an independent reference definition:
  - the cell quad `GridQuad`;
  - the zig-zag triangle `ZigZag`;
  - the rotated copies;
  - the "first vertex of every key" list `DedupBy`.
- **Inverses.**
  - Mirroring twice restores the vertices.
  - Scaling by s and then by 1/s restores them.
  - `Allen_Bit_Dia` and `Allen_Bit_Dia_To_Flat` invert each other.
  - Unpacking the vertex list and regrouping it gives it back.
  - The host's reading of the four face slots gives the face back.
  - `LegalName` and the `.x` suffix are idempotent.
- **Heights.** The heights the source tracks with its running `Lowest_Z_Vert` are the lowest heights of the geometry. The lift that places a bolt's thread floor, or a nut's bottom, at z = 0 is given in closed form.

## Model

Abbreviation used in the table: `bolt` = `add_mesh_BoltFactory/original_script_add_mesh_bolt.py`. Each source cell spells the path out in full.

| member | source | states |
|---|---|---|
| Geometry.MoveVertsUpZ | add_mesh_BoltFactory/original_script_add_mesh_bolt.py:232-236 | Same number of vertices; each keeps x and y and rises by exactly `d`. |
| Geometry.MoveUpThenDown | add_mesh_BoltFactory/original_script_add_mesh_bolt.py:232-236 | Raising by d and then by -d gives back the original vertex list. |
| Geometry.ScaleMeshVerts | add_mesh_BoltFactory/original_script_add_mesh_bolt.py:125-129 | Same number of vertices, each coordinate multiplied by the scale factor. |
| Geometry.ScaleThenUnscale | add_mesh_BoltFactory/original_script_add_mesh_bolt.py:125-129 | For a non-zero factor s, scaling by s and then by 1/s restores every vertex. |
| Geometry.LowestZ | add_mesh_BoltFactory/original_script_add_mesh_bolt.py:1054-1063 | The running `min(Lowest_Z_Vert, z)` from 0: at most 0, at most every vertex height, and either 0 or the height of some vertex. |
| Geometry.LowestZFloor | add_mesh_BoltFactory/original_script_add_mesh_bolt.py:1054-1063 | If every vertex is at or above lo, the lowest height is at or above min(lo, 0). |
| Geometry.Arc | add_mesh_BoltFactory/original_script_add_mesh_bolt.py:1049-1053 | The ring loop gives `count` points, all at the given height. |
| MeshOps.ShiftFace | add_mesh_BoltFactory/original_script_add_mesh_bolt.py:204-207 | The inner loop of Copy_Faces: same length, and every corner moved by exactly the offset. |
| MeshOps.CopyFaces | add_mesh_BoltFactory/original_script_add_mesh_bolt.py:202-209 | Same number of faces; face j is face j with every index moved by the offset. |
| MeshOps.CopyFacesBounds | add_mesh_BoltFactory/original_script_add_mesh_bolt.py:202-209 | Faces indexing [lo, hi) index [lo + offset, hi + offset) after the copy. |
| MeshOps.CopyFacesCompose | add_mesh_BoltFactory/original_script_add_mesh_bolt.py:202-209 | Copying by a and then by b equals one copy by a + b. |
| MeshOps.CopyFacesZero | add_mesh_BoltFactory/original_script_add_mesh_bolt.py:202-209 | A copy with offset 0 is the identity. |
| MeshOps.CopyFacesShaped | add_mesh_BoltFactory/original_script_add_mesh_bolt.py:202-209 | Copying keeps every face a triangle or quad with distinct corners. |
| MeshOps.ShiftReverse | add_mesh_BoltFactory/original_script_add_mesh_bolt.py:202-209 | Shifting a face's indices commutes with reversing its winding. |
| MeshOps.Append | add_mesh_BoltFactory/original_script_add_mesh_bolt.py:2006-2018 | Appending a part (`faces.extend(Copy_Faces(f, len(verts)))`, `verts.extend(v)`) keeps the accumulated mesh as a prefix, adds the sizes, and keeps validity and shape. |
| MeshOps.RotMesh | add_mesh_BoltFactory/original_script_add_mesh_bolt.py:193-199 | Same number of vertices; vertex j is vertex j rotated by the angle. |
| MeshOps.SpinCount | add_mesh_BoltFactory/original_script_add_mesh_bolt.py:213-222 | 0 divisions become one copy; otherwise `range(int(DIVISIONS))` copies, none for a negative count. |
| MeshOps.SpinCopies | add_mesh_BoltFactory/original_script_add_mesh_bolt.py:222-226 | n copies give n times the vertices and faces, stay within n vertex blocks and keep face shape. |
| MeshOps.SpinDup | add_mesh_BoltFactory/original_script_add_mesh_bolt.py:213-227 | SpinCount copies of the fragment: the sizes multiply, and a valid base gives a valid result with shapes kept. |
| MeshOps.SpinCopyVerts | add_mesh_BoltFactory/original_script_add_mesh_bolt.py:222-226 | Block k of the spun vertices is the base rotated by k * step. |
| MeshOps.SpinCopyVertAt | add_mesh_BoltFactory/original_script_add_mesh_bolt.py:222-226 | Vertex k * n + i of the spin is base vertex i rotated by k * step. |
| MeshOps.SpinDupVertAt | add_mesh_BoltFactory/original_script_add_mesh_bolt.py:213-227 | Vertex k * n + i of SpinDup is base vertex i rotated by k * DEGREE / DIVISIONS. |
| MeshOps.SpinCopyFaces | add_mesh_BoltFactory/original_script_add_mesh_bolt.py:222-226 | Block k of the spun faces is the base faces shifted by k vertex blocks. |
| MeshOps.MirrorVertsFaces | add_mesh_BoltFactory/original_script_add_mesh_bolt.py:240-264 | 'y' reflects x, 'x' reflects y and 'z' reflects z about the flip point; an unknown axis gives no vertices. Each face is shifted past the originals with its winding reversed. |
| MeshOps.MirrorTwiceRestoresVerts | add_mesh_BoltFactory/original_script_add_mesh_bolt.py:240-264 | Reflecting twice about the same plane restores every vertex. |
| MeshOps.MirrorTwiceRestoresWinding | add_mesh_BoltFactory/original_script_add_mesh_bolt.py:240-264 | Mirroring the faces twice restores the original winding, shifted by two vertex blocks. |
| MeshOps.MirrorFacesShape | add_mesh_BoltFactory/original_script_add_mesh_bolt.py:240-264 | Mirrored faces keep their shape and index only the mirrored vertex block. |
| MeshOps.MirrorAppend | add_mesh_BoltFactory/original_script_add_mesh_bolt.py:1550-1557 | Original plus mirror image: twice the vertices and faces; validity and shape are kept. |
| MeshOps.MirrorAppendVertAt | add_mesh_BoltFactory/original_script_add_mesh_bolt.py:1550-1557 | Vertex i stays in place, and its reflection sits one block further on. |
| MeshOps.MirrorAppendFaceAt | add_mesh_BoltFactory/original_script_add_mesh_bolt.py:1550-1557 | Face j stays in place, and its reversed, shifted image sits one face block further on. |
| Stitch.RowQuads | add_mesh_BoltFactory/original_script_add_mesh_bolt.py:275-282 | One row of the inner loop: m quads, quad i built from RowStart and column i. |
| Stitch.SourceQuad | add_mesh_BoltFactory/original_script_add_mesh_bolt.py:273-283 | Four corners; the cell's first point RowStart + i (plus OFFSET) comes first under FLIP and last otherwise. |
| Stitch.SourceQuadCorners | add_mesh_BoltFactory/original_script_add_mesh_bolt.py:273-283 | The corners are the cell's four grid points, each exactly once: the point, its right neighbour, and the two points COLUM + 1 further on. |
| Stitch.GridRows | add_mesh_BoltFactory/original_script_add_mesh_bolt.py:270-284 | n rows give n * max(COLUM, 0) quads. |
| Stitch.BuildFaceListQuads | add_mesh_BoltFactory/original_script_add_mesh_bolt.py:270-284 | max(COLUM, 0) * max(ROW, 0) quads, since negative ranges are empty. |
| Stitch.SourceQuadIsGridQuad | add_mesh_BoltFactory/original_script_add_mesh_bolt.py:273-283 | The source's RowStart bookkeeping builds exactly the reference cell quad (j, i) of a row-major grid with stride COLUM + 1. |
| Stitch.GridRowsContents | add_mesh_BoltFactory/original_script_add_mesh_bolt.py:270-284 | Quad j * COLUM + i of the rows is the reference quad of cell (j, i). |
| Stitch.BuildFaceListQuadsCells | add_mesh_BoltFactory/original_script_add_mesh_bolt.py:270-284 | Every quad of the list is the reference quad of its cell. |
| Stitch.GridQuadShape | add_mesh_BoltFactory/original_script_add_mesh_bolt.py:270-284 | A cell quad has four distinct corners inside the grid's index window. |
| Stitch.GridQuadFlip | add_mesh_BoltFactory/original_script_add_mesh_bolt.py:279-282 | With FLIP, a cell quad is the unflipped quad reversed. |
| Stitch.GridRowsShape | add_mesh_BoltFactory/original_script_add_mesh_bolt.py:270-284 | Every quad of the first n rows is well shaped and inside the grid window. |
| Stitch.BuildFaceListQuadsValid | add_mesh_BoltFactory/original_script_add_mesh_bolt.py:270-284 | All quads are well shaped and index [OFFSET, OFFSET + (COLUM+1)(ROW+1)). |
| Stitch.BuildFaceListQuadsFlip | add_mesh_BoltFactory/original_script_add_mesh_bolt.py:270-284 | The FLIP list is the unflipped list with every quad reversed. |
| Stitch.SourceQuadFlip | add_mesh_BoltFactory/original_script_add_mesh_bolt.py:279-282 | The source's flipped quad is its plain quad reversed. |
| Stitch.GridRowsFlip | add_mesh_BoltFactory/original_script_add_mesh_bolt.py:270-284 | Row by row, the flipped quads are the plain quads reversed. |
| Stitch.RingLoop | add_mesh_BoltFactory/original_script_add_mesh_bolt.py:298-321 | n iterations of the slot-juggling loop emit n triangles. |
| Stitch.NextSlots | add_mesh_BoltFactory/original_script_add_mesh_bolt.py:298-321 | Slot A takes the old C and C the old B; B moves one point round the ring from the old C, forward on odd iterations and backward modulo NUM on even ones, staying on the ring. |
| Stitch.FillRingFace | add_mesh_BoltFactory/original_script_add_mesh_bolt.py:289-322 | No faces (None) exactly when fewer than 3 ring vertices; otherwise NUM - 2 triangles. |
| Stitch.SlotsStep | add_mesh_BoltFactory/original_script_add_mesh_bolt.py:298-321 | One iteration takes the closed-form slots to the next slots and emits zig-zag triangle i. |
| Stitch.RingLoopClosedForm | add_mesh_BoltFactory/original_script_add_mesh_bolt.py:298-321 | After n iterations the slots are in closed form, and triangle i is zig-zag triangle i. |
| Stitch.FillRingFaceSpec | add_mesh_BoltFactory/original_script_add_mesh_bolt.py:289-322 | Fill_Ring_Face is the zig-zag triangulation of the ring, placed at OFFSET and wound per FACE_DOWN. |
| Stitch.ZigZagShape | add_mesh_BoltFactory/original_script_add_mesh_bolt.py:289-322 | Each zig-zag triangle has three distinct corners on the ring. |
| Stitch.FillRingFaceValid | add_mesh_BoltFactory/original_script_add_mesh_bolt.py:289-322 | Every triangle is well shaped and indexes [OFFSET, OFFSET + NUM). |
| Stitch.FillRingFaceDown | add_mesh_BoltFactory/original_script_add_mesh_bolt.py:289-322 | FACE_DOWN reverses every triangle of the upward fan. |
| Heads.Sweep | add_mesh_BoltFactory/original_script_add_mesh_bolt.py:566-579 | A profile arc of `count` points; point k is placed at angle start + k * step. |
| Heads.Revolve | add_mesh_BoltFactory/original_script_add_mesh_bolt.py:589-592 | 37 copies of the profile and 36 * (row - 1) quads, well shaped and in range; the last copy is the profile itself. |
| Heads.RevolveFaces | add_mesh_BoltFactory/original_script_add_mesh_bolt.py:589-592 | The joining quads are well shaped and index the 37 * row revolved points. |
| Heads.RevolveVerts | add_mesh_BoltFactory/original_script_add_mesh_bolt.py:589-592 | The revolved points are 36 spun copies followed by the profile. |
| Heads.RevolveGrid | add_mesh_BoltFactory/original_script_add_mesh_bolt.py:589-592 | Grid point (j, i) is profile point i turned by 10 j degrees; the closing copy is the profile. |
| Heads.RevolveSpunPoint | add_mesh_BoltFactory/original_script_add_mesh_bolt.py:589-592 | Point i of copy j < 36 comes before the closing copy and is profile point i turned by 10 j degrees. |
| Heads.RevolveClosingPoint | add_mesh_BoltFactory/original_script_add_mesh_bolt.py:589-592 | Point i of the closing copy is profile point i, unturned. |
| Heads.RevolveCell | add_mesh_BoltFactory/original_script_add_mesh_bolt.py:589-592 | Quad (j, i) joins points i and i + 1 of copies j and j + 1. |
| Heads.PanEndPoint | add_mesh_BoltFactory/original_script_add_mesh_bolt.py:572-579 | An end-rounding point is never below the underside of the pan head. |
| Heads.MaxPanBitDia | add_mesh_BoltFactory/original_script_add_mesh_bolt.py:517-520 | The widest hole a pan head takes is the diameter of the circle through the pan profile's first rounding point, whatever hole and shank are asked for. |
| Heads.PanProfile | add_mesh_BoltFactory/original_script_add_mesh_bolt.py:560-586 | 17 profile points; the first is raised to z = 0, the rounding stays above the underside, point 15 lies on it, and the shank point lies below it. |
| Heads.CreatePanHead | add_mesh_BoltFactory/original_script_add_mesh_bolt.py:523-597 | 37 * 17 points and 36 * 16 quads, in range. The top is at z = 0, and the reported height is 0.59 of the radius whatever HEIGHT is passed. |
| Heads.DomeCap | add_mesh_BoltFactory/original_script_add_mesh_bolt.py:636-641 | At most k cap points are kept, and none lies above the top plane. |
| Heads.DomeRimPoint | add_mesh_BoltFactory/original_script_add_mesh_bolt.py:645-650 | A rounding point is never below the dome's underside. |
| Heads.DomeRim | add_mesh_BoltFactory/original_script_add_mesh_bolt.py:644-651 | Ten rounding points, none below the underside. |
| Heads.DomeProfile | add_mesh_BoltFactory/original_script_add_mesh_bolt.py:632-654 | 12 to 18 points from the top plane down to the underside; the cap part is at or below z = 0, and the rest is at or above the underside. |
| Heads.CreateDomeHead | add_mesh_BoltFactory/original_script_add_mesh_bolt.py:601-662 | The dome profile revolved: exact sizes, in range, height 0.64 of the radius, and the closing copy is the profile. |
| Heads.CapProfile | add_mesh_BoltFactory/original_script_add_mesh_bolt.py:681-705 | 23 points; the hole edge is at z = 0 and point 12 is at -HEIGHT. |
| Heads.CreateCapHead | add_mesh_BoltFactory/original_script_add_mesh_bolt.py:666-714 | 37 * 23 points and 36 * 22 quads, valid; the reported height is HEIGHT + RAD2. |
| Heads.FlatDrop | add_mesh_BoltFactory/original_script_add_mesh_bolt.py:784-805 | The depth at which a flat meets the bevel is the length of the vector from the bevel circle's point to the flat's point in the same direction. |
| Heads.FlatRow | add_mesh_BoltFactory/original_script_add_mesh_bolt.py:809-834 | Four points per row of the hex twelfth. |
| Heads.HexTwelfth | add_mesh_BoltFactory/original_script_add_mesh_bolt.py:732-925 | 37 points, starting at the centre (0, 0, 0). |
| Heads.CreateHexHead | add_mesh_BoltFactory/original_script_add_mesh_bolt.py:718-939 | The twelfth mirrored and spun six times: 6 * 74 points, 6 * 48 quads, valid; the height is the one passed. |
| DriveBits.PlaceAll | add_mesh_BoltFactory/original_script_add_mesh_bolt.py:359-363 | Each lookup face is placed at OFFSET, and reversed under FLIP. |
| DriveBits.PlaceAllValid | add_mesh_BoltFactory/original_script_add_mesh_bolt.py:332-365 | Placing a well-shaped table keeps it well shaped and moves its index window by OFFSET. |
| DriveBits.PlaceAllFlip | add_mesh_BoltFactory/original_script_add_mesh_bolt.py:332-365 | The flipped placement is the plain one with every face reversed. |
| DriveBits.AllenLookupShape | add_mesh_BoltFactory/original_script_add_mesh_bolt.py:334-358 | The Allen fan table has distinct corners and indexes 23 vertices. |
| DriveBits.AllenFill | add_mesh_BoltFactory/original_script_add_mesh_bolt.py:332-365 | 21 triangles covering the 23 vertices from OFFSET. |
| DriveBits.AllenFillFlip | add_mesh_BoltFactory/original_script_add_mesh_bolt.py:332-365 | FLIP reverses each of the 21 triangles. |
| DriveBits.FlatRadius | add_mesh_BoltFactory/original_script_add_mesh_bolt.py:368 | The circumradius r of a hexagon satisfies r * cos 30° = flat / 2. |
| DriveBits.AllenBitDia | add_mesh_BoltFactory/original_script_add_mesh_bolt.py:367-369 | The hole diameter d for a socket of size f across flats satisfies d * cos 30° = 1.05 f: the hexagon's corner circle widened by 5%. |
| DriveBits.AllenBitDiaToFlat | add_mesh_BoltFactory/original_script_add_mesh_bolt.py:371-373 | The size f across flats for a hole of diameter d satisfies 1.05 f = d * cos 30°, the same relation solved the other way. |
| DriveBits.AllenDiaRoundTrip | add_mesh_BoltFactory/original_script_add_mesh_bolt.py:367-373 | Allen_Bit_Dia_To_Flat and Allen_Bit_Dia invert each other in both directions. |
| DriveBits.AllenHalf | add_mesh_BoltFactory/original_script_add_mesh_bolt.py:377-413 | The half socket before the mirror: 27 points and 26 faces, valid and well shaped; the outer ring at z = 0 and the bottom hexagon at -HEIGHT. |
| DriveBits.CreateAllenBit | add_mesh_BoltFactory/original_script_add_mesh_bolt.py:377-420 | 54 points and 52 faces, valid; the hole diameter is Allen_Bit_Dia(flat); the top ring is at 0 and the bottom at -HEIGHT; the second half mirrors the first across x = 0. |
| DriveBits.PhillipsLookupShape | add_mesh_BoltFactory/original_script_add_mesh_bolt.py:432-456 | The quarter table is well shaped over 19 vertices and has exactly three quads. |
| DriveBits.PhillipsFill | add_mesh_BoltFactory/original_script_add_mesh_bolt.py:430-468 | 18 faces of the quarter recess, well shaped, indexing 19 vertices from OFFSET. |
| DriveBits.PhillipsFillFlip | add_mesh_BoltFactory/original_script_add_mesh_bolt.py:430-468 | FLIP reverses triangles and quads alike. |
| DriveBits.PhillipsQuarter | add_mesh_BoltFactory/original_script_add_mesh_bolt.py:484-502 | One quarter of the cross has 19 points. |
| DriveBits.CreatePhillipsBit | add_mesh_BoltFactory/original_script_add_mesh_bolt.py:472-508 | The quarter spun four times: 76 points and 72 faces, valid; the hole is 1.05 * FLAT_DIA; the first quarter is the unrotated profile. |
| Thread.StepsProper | add_mesh_BoltFactory/original_script_add_mesh_bolt.py:1223-1225 | Crest and root heights derived from a proper form are non-negative, with the same pitch. |
| Thread.Rings37Concat | add_mesh_BoltFactory/original_script_add_mesh_bolt.py:1398-1401 | Stacking two zones of 37-point rings gives 37-point rings. |
| Thread.Flatten | add_mesh_BoltFactory/original_script_add_mesh_bolt.py:1398-1401 | A stack of 37-point rings flattens to 37 vertices per ring. |
| Thread.FlattenConcat | add_mesh_BoltFactory/original_script_add_mesh_bolt.py:1398-1401 | Flattening distributes over stacking zones. |
| Thread.FlattenAbove | add_mesh_BoltFactory/original_script_add_mesh_bolt.py:1398-1401 | A height bound on every ring point holds for every flattened vertex. |
| Thread.Pitches | add_mesh_BoltFactory/original_script_add_mesh_bolt.py:1234-1271 | The running offset drops by one pitch per turn; with a non-negative pitch the total is non-negative. |
| Thread.PitchesProduct | add_mesh_BoltFactory/original_script_add_mesh_bolt.py:1234-1271 | n pitches laid end to end equal n * pitch. |
| Thread.PitchesSmall | add_mesh_BoltFactory/original_script_add_mesh_bolt.py:1071-1201 | One to four pitches are p, 2p, 3p, 4p. |
| Thread.Ring | add_mesh_BoltFactory/original_script_add_mesh_bolt.py:1236-1243 | A ring has 37 points, point i at the clamped height one height step per point below the ring start. |
| Thread.Turn | add_mesh_BoltFactory/original_script_add_mesh_bolt.py:1234-1271 | A turn is four 37-point rings (crest, flank, root, flank) with their clamped heights. |
| Thread.Turns | add_mesh_BoltFactory/original_script_add_mesh_bolt.py:1234-1273 | n turns give 4n rings, and the offset ends n pitches lower. |
| Thread.TurnsPointZ | add_mesh_BoltFactory/original_script_add_mesh_bolt.py:1234-1271 | Ring k of turn j starts j pitches below the zone start. |
| Thread.TurnsBelow | add_mesh_BoltFactory/original_script_add_mesh_bolt.py:1071-1201 | A clamp capped at hi keeps every ring point at or below hi. |
| Thread.TurnsAbove | add_mesh_BoltFactory/original_script_add_mesh_bolt.py:1277-1364 | A clamp floored at lo keeps every ring point, and every flattened vertex, at or above lo. |
| Thread.CapAt | add_mesh_BoltFactory/original_script_add_mesh_bolt.py:1107 | `if z > cap: z = cap` never returns more than the cap. |
| Thread.FloorAt | add_mesh_BoltFactory/original_script_add_mesh_bolt.py:1308-1309 | `z = max(z, floor)` never returns less than the floor. |
| Thread.ShankZone | add_mesh_BoltFactory/original_script_add_mesh_bolt.py:1023-1068 | Two rings: the first at Z_LOCATION, the taper ring between it and the end of the shank; the offset ends LENGTH lower. |
| Thread.StartZone | add_mesh_BoltFactory/original_script_add_mesh_bolt.py:1071-1201 | Three turns (12 rings), none above the zone start; the offset ends two pitches lower. |
| Thread.Trunc | add_mesh_BoltFactory/original_script_add_mesh_bolt.py:1219 | Python `int()` truncates toward zero: for positive x it is the floor, for negative x the ceiling. |
| Thread.BodyZone | add_mesh_BoltFactory/original_script_add_mesh_bolt.py:1205-1273 | n unclamped turns: 4n rings, and the offset ends n pitches lower. |
| Thread.BodyTurns | add_mesh_BoltFactory/original_script_add_mesh_bolt.py:1219 | For a positive pitch and HEIGHT of at least 7 pitches, the count n is the number of whole pitches left: n * PITCH ≤ HEIGHT - 7 PITCH < (n + 1) PITCH. Below 7 pitches it is at most 0. |
| Thread.BodyRadius | add_mesh_BoltFactory/original_script_add_mesh_bolt.py:1234-1271 | Crest rings sit on the major radius, root rings on the minor. |
| Thread.Closing | add_mesh_BoltFactory/original_script_add_mesh_bolt.py:1177-1178 | Closing in by one Rank per point: the major radius at point 0, the minor at point 36, between them in between. |
| Thread.Opening | add_mesh_BoltFactory/original_script_add_mesh_bolt.py:1809-1810 | Opening out by one Rank per point: the minor radius at point 0, the major at point 36, between them in between. |
| Thread.StartRadius | add_mesh_BoltFactory/original_script_add_mesh_bolt.py:1095-1194 | The first turn and every crest ring on the major radius; from the third turn the root rings on the minor; every radius between the two. |
| Thread.EndTurnsShape | add_mesh_BoltFactory/original_script_add_mesh_bolt.py:1277-1364 | 16 rings, four pitches down, none below three pitches under the zone. |
| Thread.EndRadius | add_mesh_BoltFactory/original_script_add_mesh_bolt.py:1308-1358 | Crest rings: the major radius down to the taper start, then shrinking one for one with the depth. Root rings: the smaller of the minor radius and that shrinking radius. |
| Thread.EndTurns | add_mesh_BoltFactory/original_script_add_mesh_bolt.py:1277-1364 | Four tapering turns: 16 rings of 37 points, and the running offset four pitches lower. |
| Thread.EndTurnsLastPoint | add_mesh_BoltFactory/original_script_add_mesh_bolt.py:1350-1360 | For a proper form, the last end point lies on the floor, Max_Height. |
| Thread.EndTurnsLowest | add_mesh_BoltFactory/original_script_add_mesh_bolt.py:1277-1364 | Lowest_Z_Vert over the end turns is the floor, or 0 if the floor is above 0. |
| Thread.EndZone | add_mesh_BoltFactory/original_script_add_mesh_bolt.py:1277-1364 | 16 rings, the offset four pitches lower, none below the floor; the reported lowest height is the true lowest and, for a proper form, the floor. |
| Thread.StackLowest | add_mesh_BoltFactory/original_script_add_mesh_bolt.py:1277-1364 | A stack bounded below by lo and ending on lo has lowest height min(lo, 0). |
| Thread.LastRingBottom | add_mesh_BoltFactory/original_script_add_mesh_bolt.py:1350-1361 | The last point of a proper turn is at least one pitch below the turn start. |
| Thread.LastPointOnFloor | add_mesh_BoltFactory/original_script_add_mesh_bolt.py:1350-1360 | A floored turn that starts at or below the floor ends exactly on it. |
| Thread.StackFaces | add_mesh_BoltFactory/original_script_add_mesh_bolt.py:1403-1404 | 36 columns of quads between consecutive rings, plus 34 fan triangles when capped; all well shaped and in range. |
| Thread.ExternalStack | add_mesh_BoltFactory/original_script_add_mesh_bolt.py:1380-1395 | 30 + 4n rings from z = 0 down. For a proper form and shank ≥ 0 the depth is shank + n pitches + 5 pitches. |
| Thread.EndFloorDepth | add_mesh_BoltFactory/original_script_add_mesh_bolt.py:1369-1406 | The end floor lies shank + n pitches + 5 pitches below z = 0. |
| Thread.ExternalMesh | add_mesh_BoltFactory/original_script_add_mesh_bolt.py:1369-1406 | Exact vertex and face counts, valid, length ≥ 0, and the closed-form length for a proper form. |
| Thread.ExternalThread | add_mesh_BoltFactory/original_script_add_mesh_bolt.py:1369-1406 | Create_External_Thread with `int((LENGTH - 7 * PITCH) / PITCH)` body turns (none when negative): exact counts, valid, and the reported length in closed form. |
| Thread.RoundHalfEven | add_mesh_BoltFactory/original_script_add_mesh_bolt.py:1856 | Python 3 `round()`: within half of x, with ties to the even integer. |
| Thread.NutTurns | add_mesh_BoltFactory/original_script_add_mesh_bolt.py:1856 | For a positive pitch, the body turn count is within half a pitch of the height less one pitch, measured in pitches. |
| Thread.InternalStartRadius | add_mesh_BoltFactory/original_script_add_mesh_bolt.py:1698-1747 | Crest rings on the major radius; root rings close in to the minor radius at point 36; every radius between the two. |
| Thread.InternalEndRadius | add_mesh_BoltFactory/original_script_add_mesh_bolt.py:1772-1833 | Everything on the major radius except the first turn's root rings, which start on the minor radius; every radius between the two. |
| Thread.InternalStartZone | add_mesh_BoltFactory/original_script_add_mesh_bolt.py:1680-1752 | One turn capped at the offset; the offset comes back unchanged. |
| Thread.InternalEndZone | add_mesh_BoltFactory/original_script_add_mesh_bolt.py:1755-1840 | Two turns floored one pitch below the offset; that floor is what is handed back. |
| Thread.InternalMesh | add_mesh_BoltFactory/original_script_add_mesh_bolt.py:1843-1908 | 12 + 4n rings, inward-wound quads and no cap, valid; the height is n pitches plus one. |
| Thread.InternalThread | add_mesh_BoltFactory/original_script_add_mesh_bolt.py:1843-1908 | Create_Internal_Thread with `round((HEIGHT - PITCH) / PITCH)` body turns: exact counts, valid, and the height in closed form. |
| Weld.FaceVerts | add_mesh_BoltFactory/original_script_add_mesh_bolt.py:108-110 | The corner vertices of a face, corner by corner. |
| Weld.FaceVertsSnoc | add_mesh_BoltFactory/original_script_add_mesh_bolt.py:108-110 | A face's corner vertices grow by one with its last index. |
| Weld.KeySeq | add_mesh_BoltFactory/original_script_add_mesh_bolt.py:103-104 | The rounded key of each vertex, position by position. |
| Weld.DedupBy | add_mesh_BoltFactory/original_script_add_mesh_bolt.py:96-120 | The reference vertex list: the first vertex of every key. Its keys are the deduplicated keys of the stream, and each is taken from the stream. |
| Weld.KeysOf | add_mesh_BoltFactory/original_script_add_mesh_bolt.py:108-111 | The keys of a face's corners. |
| Weld.Dedup | add_mesh_BoltFactory/original_script_add_mesh_bolt.py:115-116 | Same elements as the input, no repeats, no longer than the input. |
| Weld.DedupOfDistinct | add_mesh_BoltFactory/original_script_add_mesh_bolt.py:115-116 | A sequence without repeats is its own Dedup. |
| Weld.Kept | add_mesh_BoltFactory/original_script_add_mesh_bolt.py:117-118 | The surviving faces are a subsequence of the input faces, in range. |
| Weld.Register | add_mesh_BoltFactory/original_script_add_mesh_bolt.py:112-114 | A known key changes nothing; a new key gets index len(dict_verts) and its real vertex is appended. The dictionary stays a bijection. |
| Weld.WeldFace | add_mesh_BoltFactory/original_script_add_mesh_bolt.py:107-116 | The inner loop builds a face of distinct new indices whose keys are the face's keys with repeats removed. |
| Weld.WeldFaceStep | add_mesh_BoltFactory/original_script_add_mesh_bolt.py:115-116 | Adding an index only when it is absent extends the deduplicated keys by one step. |
| Weld.AppendNewIndex | add_mesh_BoltFactory/original_script_add_mesh_bolt.py:115-116 | `if id not in new_face: append` keeps indices distinct and in range. |
| Weld.KeysOfGrow | add_mesh_BoltFactory/original_script_add_mesh_bolt.py:112-114 | Appending new vertices leaves the keys of existing faces unchanged. |
| Weld.KeysOfSnoc | add_mesh_BoltFactory/original_script_add_mesh_bolt.py:115-116 | Keys of a face with one more index are the old keys plus that index's key. |
| Weld.DedupSnoc | add_mesh_BoltFactory/original_script_add_mesh_bolt.py:115-116 | Dedup of s + [k] keeps Dedup(s), or appends k when it is new. |
| Weld.KeyInFaceIff | add_mesh_BoltFactory/original_script_add_mesh_bolt.py:115-116 | Under a bijective dictionary, an index is in a face exactly when its key is among the face's keys. |
| Weld.WeldFaces | add_mesh_BoltFactory/original_script_add_mesh_bolt.py:106-118 | The outer loop keeps exactly the Kept faces, each re-indexed onto its deduplicated keys, well shaped and in range. |
| Weld.WeldFacesStep | add_mesh_BoltFactory/original_script_add_mesh_bolt.py:117-118 | One face step keeps a 3- or 4-corner result and drops others, preserving the loop invariant. |
| Weld.ConsistentKeys | add_mesh_BoltFactory/original_script_add_mesh_bolt.py:112-114 | The dictionary holds exactly the keys of the new vertex list. |
| Weld.WeldFaceVerts | add_mesh_BoltFactory/original_script_add_mesh_bolt.py:107-116 | Welding one face extends the new vertex list as DedupBy of the visited corners. |
| Weld.RegisterDedupBy | add_mesh_BoltFactory/original_script_add_mesh_bolt.py:112-114 | One registration is one step of DedupBy. |
| Weld.WeldFacesVerts | add_mesh_BoltFactory/original_script_add_mesh_bolt.py:106-118 | The outer loop's new vertex list is DedupBy of every corner vertex in visiting order. |
| Weld.RemoveDoubles | add_mesh_BoltFactory/original_script_add_mesh_bolt.py:96-120 | A valid mesh of triangles and quads, no more faces than the input, and no two new vertices share a key. |
| Weld.RemoveDoublesSpec | add_mesh_BoltFactory/original_script_add_mesh_bolt.py:96-120 | The new vertices are DedupBy of the corners, and the faces are exactly the Kept input faces re-indexed onto their deduplicated keys. |
| Weld.KeptAll | add_mesh_BoltFactory/original_script_add_mesh_bolt.py:117-118 | Triangles and quads whose corner keys are already distinct all survive. |
| Weld.RemoveDoublesFacesStable | add_mesh_BoltFactory/original_script_add_mesh_bolt.py:96-120 | A second weld keeps every face of the first, with the same corner keys in the same order. |
| Weld.WeldCollapsedTriangle | add_mesh_BoltFactory/original_script_add_mesh_bolt.py:96-120 | [a, a, b] with triangle [0, 1, 2] welds to vertices [a, b] with no faces: a dropped face leaves its vertices behind. |
| Weld.CollapsedTriangleParts | add_mesh_BoltFactory/original_script_add_mesh_bolt.py:96-120 | The collapsed triangle's corners dedup to [a, b], and no face is kept. |
| Weld.WeldNoFaces | add_mesh_BoltFactory/original_script_add_mesh_bolt.py:96-120 | Without faces the weld keeps no vertices, so a second weld drops those orphans and the vertex count is not stable. |
| Weld.FaceVertsOfTriangle | add_mesh_BoltFactory/original_script_add_mesh_bolt.py:108-110 | The corners of [0, 1, 2] over three vertices are those vertices. |
| Weld.DedupTwoOfThree | add_mesh_BoltFactory/original_script_add_mesh_bolt.py:112-116 | [a, a, b] deduplicates to [a, b]. |
| HostPack.UnpackList | add_mesh_BoltFactory/original_script_add_mesh_bolt.py:60-64 | Three numbers per vertex: x, y, z of vertex i at 3i, 3i + 1, 3i + 2. |
| HostPack.RepackList | add_mesh_BoltFactory/original_script_add_mesh_bolt.py:2492-2493 | The host regroups a flat list of length 3n into n vertices. |
| HostPack.RepackUnpack | add_mesh_BoltFactory/original_script_add_mesh_bolt.py:60-64 | Regrouping the flat list gives back exactly the vertices. |
| HostPack.FaceSlots | add_mesh_BoltFactory/original_script_add_mesh_bolt.py:75-79 | Every face takes exactly four slots. |
| HostPack.UnpackFaceList | add_mesh_BoltFactory/original_script_add_mesh_bolt.py:66-83 | Succeeds exactly when every face has 3 or 4 corners; then four slots per face. Otherwise the error names the size of the first bad face. |
| HostPack.RotateRight | add_mesh_BoltFactory/original_script_add_mesh_bolt.py:75-76 | The rotated quad starts one corner earlier: the same cycle and winding. |
| HostPack.ReadSlotsRoundTrip | add_mesh_BoltFactory/original_script_add_mesh_bolt.py:66-83 | A triangle reads back as itself; a quad reads back as itself or as the same cycle rotated, and its last slot is never 0. |
| HostPack.ZeroLastSlotMeansTriangle | add_mesh_BoltFactory/original_script_add_mesh_bolt.py:66-83 | For a well-shaped face, a 0 in the last slot means exactly a triangle. |
| HostPack.PackedIndicesIn | add_mesh_BoltFactory/original_script_add_mesh_bolt.py:66-83 | Packing valid, well-shaped faces succeeds, and every slot, padding included, names a vertex. |
| HostPack.PackMesh | add_mesh_BoltFactory/original_script_add_mesh_bolt.py:2487-2494 | The counts match, the coordinates regroup into the mesh scaled by GLOBAL_SCALE, and every slot is a valid vertex index. |
| HostPack.CreateNewMesh | add_mesh_BoltFactory/original_script_add_mesh_bolt.py:2485-2494 | Weld, scale by 0.1 and pack: counts of the welded mesh, no more faces than built, scaled coordinates, and slots in range. Block j of four slots is the host encoding `FaceSlots` of welded face j. |
| Nut.RunningMin | add_mesh_BoltFactory/original_script_add_mesh_bolt.py:1493-1543 | The running min is at most its start and every entry, and equals the start or some entry. |
| Nut.NutDrop | add_mesh_BoltFactory/original_script_add_mesh_bolt.py:1489-1512 | The depth at which a flat meets the nut's top bevel (radius FLAT/2 - 0.05) is the length of the vector between the two points in the same direction. |
| Nut.NutTwelfth | add_mesh_BoltFactory/original_script_add_mesh_bolt.py:1431-1544 | 21 points: the centre, the top rows at 0, the flat-meets-bevel rows at their drops, and the last row at -HEIGHT/2. |
| Nut.NutLowestIsLowestZ | add_mesh_BoltFactory/original_script_add_mesh_bolt.py:1493-1543 | add_Hex_Nut's Lowest_Z_Vert is the lowest height of the whole twelfth. |
| Nut.NutDepthsOccur | add_mesh_BoltFactory/original_script_add_mesh_bolt.py:1493-1543 | Each height fed to the running min is the height of a twelfth vertex. |
| Nut.NutTwelfthAboveOrListed | add_mesh_BoltFactory/original_script_add_mesh_bolt.py:1493-1543 | Every twelfth vertex is at or above 0 or at a height fed to the running min. |
| Nut.RunningMinIsLowestZ | add_mesh_BoltFactory/original_script_add_mesh_bolt.py:1493-1543 | A running min over heights that occur, with the rest at or above 0, is the lowest height. |
| Nut.MirrorSixth | add_mesh_BoltFactory/original_script_add_mesh_bolt.py:1550-1557 | Two mirrors give four quarters: four times the sizes, with validity and shape kept. |
| Nut.MirrorSixthQuarters | add_mesh_BoltFactory/original_script_add_mesh_bolt.py:1550-1557 | The four images of twelfth vertex i: itself, reflected in z about Lowest_Z_Vert, and both with x negated. |
| Nut.NutSixth | add_mesh_BoltFactory/original_script_add_mesh_bolt.py:1546-1557 | 84 points and 48 quads, valid and well shaped. |
| Nut.NutTwelfthFaces | add_mesh_BoltFactory/original_script_add_mesh_bolt.py:1546 | The twelfth's 12 quads are well shaped and index its 21 points. |
| Nut.MirrorSixthSeparates | add_mesh_BoltFactory/original_script_add_mesh_bolt.py:1550-1552 | Mirrored about a height no vertex is below, the upper quarters stay above it and the lower quarters below it. |
| Nut.NutSixthHalves | add_mesh_BoltFactory/original_script_add_mesh_bolt.py:1550-1557 | The nut's mirror plane separates the upper and lower halves of each sixth. |
| Nut.CreateHexNut | add_mesh_BoltFactory/original_script_add_mesh_bolt.py:1415-1562 | 6 * 84 points and 6 * 48 quads, valid; the reported radius is FLAT/2 - 0.05, and the height is HEIGHT. |
| Nut.SixWayVertAt | add_mesh_BoltFactory/original_script_add_mesh_bolt.py:1559 | Vertex i of copy k is vertex i of the sixth turned by 60k degrees. |
| Nut.NylonHeadProfile | add_mesh_BoltFactory/original_script_add_mesh_bolt.py:1585-1609 | 13 points: the inner bottom at Z - 2/4.75 R, the rounding on its arc, and the top at Z. |
| Nut.NylonHead | add_mesh_BoltFactory/original_script_add_mesh_bolt.py:1566-1616 | 37 * 13 points and 36 * 12 quads, valid; the level is the source's running min (bare `cos * RAD1` included). |
| Nut.NylonHeadLevel | add_mesh_BoltFactory/original_script_add_mesh_bolt.py:1566-1616 | With true cosines, R ≥ 0 and Z ≤ 0, the level is the bottom inner point, the lowest of the profile. |
| Nut.RunningMinAttained | add_mesh_BoltFactory/original_script_add_mesh_bolt.py:1587-1608 | If one entry is below the start and every other entry, the running min is that entry. |
| Nut.NylonDepthsFloor | add_mesh_BoltFactory/original_script_add_mesh_bolt.py:1587-1608 | Every recorded height is at or above the second one, the bottom inner point. |
| Nut.NylonProfileFloor | add_mesh_BoltFactory/original_script_add_mesh_bolt.py:1585-1609 | The bottom inner point is the lowest point of the nylon head's profile. |
| Nut.NylonPartProfile | add_mesh_BoltFactory/original_script_add_mesh_bolt.py:1641-1662 | The ring's profile is four points. |
| Nut.NylonPart | add_mesh_BoltFactory/original_script_add_mesh_bolt.py:1620-1670 | 37 * 4 points and 36 * 3 quads, valid; the level is 0 - Lowest_Z_Vert ≥ 0. |
| Nut.PartLowest | add_mesh_BoltFactory/original_script_add_mesh_bolt.py:1643-1661 | A running min over all profile heights is the profile's lowest height. |
| Nut.NylonPartDepth | add_mesh_BoltFactory/original_script_add_mesh_bolt.py:1620-1670 | For R ≥ 0 and Z ≤ 0 the level is 1.6/4.75 R - Z. |
| Assembly.Raise | add_mesh_BoltFactory/original_script_add_mesh_bolt.py:2006-2020 | Move_Verts_Up_Z on a fragment: sizes and faces kept, each vertex raised by d, validity kept. |
| Assembly.AllenBitDiaScales | add_mesh_BoltFactory/original_script_add_mesh_bolt.py:367-369 | The hole diameter is proportional to the size across flats. |
| Assembly.AllenFlatFor | add_mesh_BoltFactory/original_script_add_mesh_bolt.py:1971-1981 | The size is changed only for an Allen socket on a pan head whose hole would be wider than Max_Pan_Bit_Dia; the resulting hole is the asked-for one or exactly 1.05 * Max_Pan_Bit_Dia. |
| Assembly.PanAllenResize | add_mesh_BoltFactory/original_script_add_mesh_bolt.py:1977-1981 | On an Allen pan head, a socket that fits is kept, and one that does not becomes exactly 1.05 * Max_Pan_Bit_Dia. Every other combination keeps the flat as asked. |
| Assembly.BoltBit | add_mesh_BoltFactory/original_script_add_mesh_bolt.py:1984-1988 | No bit: empty mesh, hole 0.001. Allen: 54 points, hole of the (resized) socket. Phillips: 76 points, hole 1.05 * diameter. Always valid. |
| Assembly.BoltHead | add_mesh_BoltFactory/original_script_add_mesh_bolt.py:1993-2003 | Each head type builds a valid mesh of well-shaped faces. |
| Assembly.BoltHeadHeight | add_mesh_BoltFactory/original_script_add_mesh_bolt.py:1993-2003 | The head's reported height: hex as set, cap height + diameter/19, dome 0.32 * diameter, pan 0.295 * diameter. |
| Assembly.BoltMesh | add_mesh_BoltFactory/original_script_add_mesh_bolt.py:1958-2020 | Valid mesh of bit, head and thread with the exact vertex count; lift ≥ 0 in closed form; the bit and head are raised by the head height plus the lift. |
| Assembly.AddNylonInsert | add_mesh_BoltFactory/original_script_add_mesh_bolt.py:1933-1942 | The lock-nut branch appends 37 * 13 + 37 * 4 points after the nut, keeps it as a prefix, and stays valid; with true cosines the level is the nylon head's bottom. |
| Assembly.LockNutLevel | add_mesh_BoltFactory/original_script_add_mesh_bolt.py:1931-1935 | With true cosines, R ≥ 0 and Z ≤ 0, the nylon head reports Z - 2/4.75 R. |
| Assembly.AppendBoth | add_mesh_BoltFactory/original_script_add_mesh_bolt.py:1934-1942 | Two parts appended in turn keep the nut as a prefix, add the sizes, and stay valid. |
| Assembly.NutMesh | add_mesh_BoltFactory/original_script_add_mesh_bolt.py:1911-1945 | Valid mesh with the exact vertex count. The lift is the thread height for a plain nut, and the thread height + 2/4.75 R for a lock nut. |
| Assembly.CreateNewMesh | add_mesh_BoltFactory/original_script_add_mesh_bolt.py:2465-2494 | Builds the chosen model, welds, scales and packs it: fewer or equal faces, coordinates of the welded mesh scaled by 0.1, and every slot in range. The counts are those of the welded mesh, and block j of four slots is the host encoding of welded face j. |
| Sqorus.SqorusVerts | add_mesh_sqorus.py:66-73 | 32 vertices; vertex n is grid point n/2 (x = j/3 * width, y = i/3 * height) in front (even n, +depth/2) or behind (odd n). |
| Sqorus.GridPointAt | add_mesh_sqorus.py:66-73 | Loop step (i, j) makes vertices 8i + 2j and 8i + 2j + 1: grid point 4i + j in front and behind. |
| Sqorus.Quad | add_mesh_sqorus.py:76-101 | The quad [i + a, i + b, i + c, i + d]. |
| Sqorus.FrontQuad | add_mesh_sqorus.py:75-76 | The front quad of an outer cell is a good face of front vertices only. |
| Sqorus.BackQuad | add_mesh_sqorus.py:75-77 | The back quad of an outer cell is a good face of back vertices only. |
| Sqorus.MixedQuad | add_mesh_sqorus.py:79-101 | A side quad mixing the two layers cannot close the centre cell. |
| Sqorus.Quads | add_mesh_sqorus.py:79-101 | One quad per start, quad j built from start j, in order. |
| Sqorus.EmitLoop | add_mesh_sqorus.py:79-89 | A side loop appends exactly the quads of its starts, in order, after the faces so far; every face stays good. |
| Sqorus.CellFaces | add_mesh_sqorus.py:75-77 | For each outer cell, its front quad and then its back quad, each good and in its layer. |
| Sqorus.LeftRightSides | add_mesh_sqorus.py:79-83 | The left and right side loops append exactly the first six side quads, [0,8,9,1] through [22,23,31,30]. |
| Sqorus.LeftRightQuads | add_mesh_sqorus.py:79-83 | The left and right loops emit exactly the first six side quads. |
| Sqorus.BottomTopSides | add_mesh_sqorus.py:85-89 | The bottom and top side loops append exactly the next six, [0,1,3,2] through [28,30,31,29]. |
| Sqorus.BottomTopQuads | add_mesh_sqorus.py:85-89 | The bottom and top loops emit exactly side quads 6 to 11. |
| Sqorus.HoleSides | add_mesh_sqorus.py:91-101 | The four hole faces append exactly [10,11,19,18], [12,20,21,13], [18,19,21,20], [10,12,13,11]. |
| Sqorus.QuadsOfThree | add_mesh_sqorus.py:79-89 | A three-start loop emits exactly its three quads. |
| Sqorus.HoleQuads | add_mesh_sqorus.py:91-101 | The four one-start hole loops emit exactly the last four side quads. |
| Sqorus.SideFaces | add_mesh_sqorus.py:79-101 | The outer side loops and the four faces of the hole append exactly the 16 quads `SideQuads`, [0,8,9,1] through [10,12,13,11], after the faces before; all good. |
| Sqorus.SqorusFaces | add_mesh_sqorus.py:75-101 | 32 good quads, none closing the centre cell; the first 16 are the front and back quads of the eight outer cells, and the last 16 are exactly `SideQuads`. |
| Sqorus.Flatten | add_mesh_sqorus.py:76-101 | Four slots per quad, in order. |
| Sqorus.FlattenBlock | add_mesh_sqorus.py:76-101 | Block j of four slots is quad j. |
| Sqorus.FlattenGood | add_mesh_sqorus.py:76-101 | Flattening good quads gives four slots per quad, block t equal to quad t, every slot one of the 32 vertices. |
| Sqorus.SqorusCoords | add_mesh_sqorus.py:66-73 | The flat coordinate list: 96 numbers, x, y, z of grid vertex n at 3n, 3n + 1, 3n + 2. |
| Sqorus.SqorusSlots | add_mesh_sqorus.py:75-101 | The flat index list: 128 slots naming the 32 vertices; block t is a good quad, the cells' quads in their layers first and then `SideQuads`. |
| Sqorus.AddSqorus | add_mesh_sqorus.py:59-103 | 96 coordinates (three per grid point) and 128 indices, each naming one of the len / 3 vertices the operator declares. Block t of four slots is face t: a good quad; blocks 0-15 are the cells' front and back quads, each in its layer, and blocks 16-31 are `SideQuads`. |
| DirectX.Replace | export_directx_x.py:93-94 | str.replace on one character: same length, each a replaced by b. |
| DirectX.ReplaceAbsent | export_directx_x.py:93-94 | Replacing a character that does not occur changes nothing. |
| DirectX.UnderscoredChars | export_directx_x.py:93-94 | After both replacements the name keeps its length, has no dot or space, and differs only where it had one. |
| DirectX.LegalName | export_directx_x.py:92-112 | The result is legal: no dots or spaces, no leading digit, not a keyword. It gains a leading underscore exactly when the underscored name starts with a digit or is a keyword; every other character is the name's with dots and spaces made underscores. |
| DirectX.PrefixedNotReserved | export_directx_x.py:95-111 | No keyword starts with an underscore, so a prefixed name is never reserved. |
| DirectX.LegalFixed | export_directx_x.py:92-112 | A legal name is its own LegalName. |
| DirectX.LegalNameIdempotent | export_directx_x.py:92-112 | LegalName applied twice equals LegalName applied once. |
| DirectX.GetMeshVertexCount | export_directx_x.py:196-200 | The loop returns the corner count of the faces, every vertex counted once per face. |
| DirectX.CornersConcat | export_directx_x.py:196-200 | Corner counts add over concatenated face lists. |
| DirectX.CornersBounds | export_directx_x.py:196-200 | For triangles and quads, the count lies between 3 and 4 per face. |
| DirectX.ExportPath | export_directx_x.py:1024-1028 | The path ends in `.x` in either case; the input is a prefix; it is unchanged exactly when it already ended in `.x`, otherwise `.x` is appended. |
| DirectX.ExportPathIdempotent | export_directx_x.py:1024-1028 | Fixing the suffix twice equals fixing it once. |
| DirectX.DefaultPath | export_directx_x.py:1051-1054 | A `.blend` path loses that suffix and gains `.x` (4 characters shorter); any other path is unchanged. |
| DirectX.DefaultThenExport | export_directx_x.py:1024-1054 | The menu's default for a saved file passes export unchanged; an unsaved file's empty path becomes `.x`. |

## Left out

- Registration, UI panels, presets, property definitions and the host mesh API calls are not modelled. The packed vertex and face lists the host receives are the model's output.
- Sine, cosine, tangent, square root, `radians` and the rotation matrix (`Simple_RotationMatrix`, `Rot_Mesh`'s matrix product) are left abstract as fields of `Geometry.Math`. Only cos 30° > 0 and tan 31° > 0 are assumed (`Math.Sane`). `Assembly.NylonCosines` adds cos ≥ -1 at the ten nylon rounding angles where a result depends on it.
- Floating point is modelled as exact real arithmetic; rounding error is not modelled.
- RemoveDoubles' `round(x, 4)` is an abstract key function `key`, and two vertices are doubles exactly when their keys are equal. `Exact` is the key that merges only identical positions.
- A pitch of 0 makes the source divide by zero (ZeroDivisionError). It is excluded by the `pitch != 0.0` preconditions.
- DirectX.LegalName: an empty name makes the source index past the end (IndexError). It is excluded by `|name| > 0`.
- DirectX.IsDigit covers only '0'-'9'. Python's `str.isdigit` also accepts other Unicode digits.
- DirectX.ExportPath models `lower()` only as far as the `lower().endswith('.x')` test needs it: the final character may be 'x' or 'X'. No other case folding is modelled.
- The rest of the DirectX exporter (frames, armatures, animation, materials, file writing) is not modelled.
- `Thread_Start3`, `Flat_To_Radius`, `Get_Phillips_Bit_Height` and the other helpers that the named builders do not call are not modelled.
- The debugging `print` calls and the unused module-global `Global_Head_Height` / `Global_NutRad` bookkeeping are not modelled.
- Assembly.BoltHead: its contract states validity only. The vertex counts of each head are stated by `Heads.CreateHexHead` and its siblings, and the heights by `Assembly.BoltHeadHeight`.
- Assembly.NutMesh: the lock-nut lift is stated only under `NylonCosines`, a non-negative insert radius and a non-negative thread height. Without them the nylon head's bare `cos * RAD1` entries can undercut its bottom point.
- Assembly.BoltMesh: the closed-form lift is stated for a proper thread form (pitch > 0, crest and root ≥ 0) and a non-negative shank length.
- Thread.ExternalMesh: the closed-form length is stated for a proper thread form and a non-negative shank length. Otherwise only `length >= 0` is stated.
- Heads.FlatRow, Heads.HexTwelfth, DriveBits.PhillipsQuarter, Nut.NylonPartProfile: the contracts give the point counts and the anchor points, not every coordinate.
- Sqorus.AddSqorus: `mesh.add_geometry`, `foreach_set` and the object linking are host calls; the model ends with the two flat lists.

## Remarks

- `add_Nylon_Head` records the bare `cos * RAD1` in its running minimum (`bolt`:1601), not the height of the point it just made. `Nut.NylonHeadLevel` shows that, with true cosines, the result still equals the bottom inner point, so Nut_Mesh's lift is unaffected.
- On a pan head, Bolt_Mesh shrinks an Allen socket that does not fit to 1.05 times the size that would exactly fit (`bolt`:1977-1981). The socket's hole then is 1.05 * Max_Pan_Bit_Dia, still 5% wider than the widest hole the head takes (`Assembly.PanAllenResize`).
- Welding is not idempotent on vertex counts: a face that collapses to fewer than three distinct keys is dropped, but the vertices it registered stay (`Weld.WeldCollapsedTriangle`, `Weld.WeldNoFaces`). Face counts and face keys are stable (`Weld.RemoveDoublesFacesStable`).
