/**
  RemoveDoubles: the weld pass that merges vertices whose rounded
  coordinates coincide. Rounding is an abstract key function `key`; two
  vertices are doubles exactly when their keys are equal.
 */
module Weld {
  import opened Geometry

  /** The dictionary from rounded key to new index, and the new vertex list. */
  datatype WeldState<K> = WeldState(ids: map<K, int>, verts: seq<Vertex>)

  // ---------------------------------------------------------------------------
  // Reference definitions
  // ---------------------------------------------------------------------------

  /** The vertices at the corners of one face. */
  function FaceVerts(verts: seq<Vertex>, f: Face): (r: seq<Vertex>)
    requires IndicesIn(f, 0, |verts|)
    ensures |r| == |f|
    ensures forall k :: 0 <= k < |f| ==> r[k] == verts[f[k]]
  {
    seq(|f|, k requires 0 <= k < |f| => verts[f[k]])
  }

  lemma FaceVertsSnoc(verts: seq<Vertex>, f: Face)
    requires IndicesIn(f, 0, |verts|) && f != []
    ensures FaceVerts(verts, f) == FaceVerts(verts, f[..|f| - 1]) + [verts[f[|f| - 1]]]
  {
    var l := FaceVerts(verts, f);
    var r := FaceVerts(verts, f[..|f| - 1]) + [verts[f[|f| - 1]]];
    assert |l| == |r|;
    forall k | 0 <= k < |l| ensures l[k] == r[k] {
      if k < |f| - 1 { assert r[k] == verts[f[..|f| - 1][k]]; }
    }
  }

  /** The vertex at every face corner, in the order the weld visits them. */
  function CornerVerts(verts: seq<Vertex>, faces: seq<Face>): (r: seq<Vertex>)
    requires FacesIn(faces, 0, |verts|)
  {
    if faces == [] then []
    else CornerVerts(verts, faces[..|faces| - 1]) + FaceVerts(verts, faces[|faces| - 1])
  }

  /** The keys of a vertex list, position by position. */
  function KeySeq<K>(key: Vertex -> K, vs: seq<Vertex>): (r: seq<K>)
    ensures |r| == |vs|
    ensures forall i :: 0 <= i < |vs| ==> r[i] == key(vs[i])
  {
    seq(|vs|, i requires 0 <= i < |vs| => key(vs[i]))
  }

  /**
    The first vertex of every key, in order of first appearance: the vertex
    list a weld of `stream` must produce.
   */
  function DedupBy<K(==,!new)>(key: Vertex -> K, stream: seq<Vertex>): (r: seq<Vertex>)
    ensures KeySeq(key, r) == Dedup(KeySeq(key, stream))
    ensures forall i :: 0 <= i < |r| ==> r[i] in stream
  {
    if stream == [] then []
    else
      var d := DedupBy(key, stream[..|stream| - 1]);
      var v := stream[|stream| - 1];
      var r := if key(v) in KeySeq(key, d) then d else d + [v];
      assert KeySeq(key, stream)[..|stream| - 1] == KeySeq(key, stream[..|stream| - 1]);
      assert KeySeq(key, r) == if key(v) in KeySeq(key, d) then KeySeq(key, d) else KeySeq(key, d) + [key(v)];
      r
  }

  /** The keys of a face's corners. */
  function KeysOf<K>(verts: seq<Vertex>, key: Vertex -> K, f: Face): (r: seq<K>)
    requires IndicesIn(f, 0, |verts|)
    ensures |r| == |f|
    ensures forall k :: 0 <= k < |f| ==> r[k] == key(verts[f[k]])
  {
    seq(|f|, k requires 0 <= k < |f| => key(verts[f[k]]))
  }

  /** A sequence with later repeats removed; first occurrences keep their order. */
  function Dedup<K(==,!new)>(s: seq<K>): (r: seq<K>)
    ensures |r| <= |s|
    ensures forall x :: x in r <==> x in s
    ensures forall i, j :: 0 <= i < j < |r| ==> r[i] != r[j]
  {
    if s == [] then []
    else
      var d := Dedup(s[..|s| - 1]);
      assert s == s[..|s| - 1] + [s[|s| - 1]];
      if s[|s| - 1] in d then d else d + [s[|s| - 1]]
  }

  /** A sequence without repeats is its own Dedup. */
  lemma {:induction false} DedupOfDistinct<K(!new)>(s: seq<K>)
    requires forall i, j :: 0 <= i < j < |s| ==> s[i] != s[j]
    ensures Dedup(s) == s
  {
    if s != [] {
      var init := s[..|s| - 1];
      DedupOfDistinct(init);
      assert s[|s| - 1] !in init;
      assert init + [s[|s| - 1]] == s;
    }
  }

  /** The input faces that survive the weld: those with 3 or 4 distinct keys. */
  function Kept<K(==,!new)>(verts: seq<Vertex>, key: Vertex -> K, faces: seq<Face>): (r: seq<Face>)
    requires FacesIn(faces, 0, |verts|)
    ensures |r| <= |faces|
    ensures FacesIn(r, 0, |verts|)
  {
    if faces == [] then []
    else
      var prev := Kept(verts, key, faces[..|faces| - 1]);
      var n := |Dedup(KeysOf(verts, key, faces[|faces| - 1]))|;
      if n == 3 || n == 4 then prev + [faces[|faces| - 1]] else prev
  }

  // ---------------------------------------------------------------------------
  // The weld as the source performs it
  // ---------------------------------------------------------------------------

  /** The dictionary and the new vertex list agree: `ids` is a bijection onto the new indices. */
  ghost predicate Consistent<K(!new)>(key: Vertex -> K, st: WeldState<K>) {
    && |st.ids| == |st.verts|
    && (forall k :: k in st.ids ==> 0 <= st.ids[k] < |st.verts| && key(st.verts[st.ids[k]]) == k)
    && (forall i :: 0 <= i < |st.verts| ==> key(st.verts[i]) in st.ids && st.ids[key(st.verts[i])] == i)
  }

  /** Look up (or register) the key of one input vertex, as the inner loop does. */
  function Register<K(==,!new)>(verts: seq<Vertex>, key: Vertex -> K, st: WeldState<K>, idx: int): (r: WeldState<K>)
    requires 0 <= idx < |verts|
    requires Consistent(key, st)
    ensures Consistent(key, r)
    ensures key(verts[idx]) in r.ids
    ensures st.verts <= r.verts
    ensures key(verts[idx]) in st.ids ==> r == st
    ensures key(verts[idx]) !in st.ids ==> r.verts == st.verts + [verts[idx]] && r.ids == st.ids[key(verts[idx]) := |st.verts|]
  {
    var k := key(verts[idx]);
    if k in st.ids then st
    else
      var r := WeldState(st.ids[k := |st.ids|], st.verts + [verts[idx]]);
      assert forall i :: 0 <= i < |st.verts| ==> key(r.verts[i]) != k;
      r
  }

  /** The inner loop over one face: the state after it and the new face. */
  function WeldFace<K(==,!new)>(verts: seq<Vertex>, key: Vertex -> K, st: WeldState<K>, f: Face): (r: (WeldState<K>, Face))
    requires IndicesIn(f, 0, |verts|)
    requires Consistent(key, st)
    ensures Consistent(key, r.0)
    ensures st.verts <= r.0.verts
    ensures IndicesIn(r.1, 0, |r.0.verts|) && DistinctIndices(r.1)
    ensures KeysOf(r.0.verts, key, r.1) == Dedup(KeysOf(verts, key, f))
    decreases |f|
  {
    if f == [] then (st, [])
    else
      var init := f[..|f| - 1];
      var prev := WeldFace(verts, key, st, init);
      var s1 := Register(verts, key, prev.0, f[|f| - 1]);
      var id := s1.ids[key(verts[f[|f| - 1]])];
      var nf := if id in prev.1 then prev.1 else prev.1 + [id];
      assert IndicesIn(prev.1, 0, |s1.verts|);
      KeyInFaceIff(key, s1, prev.1, id);
      WeldFaceStep(verts, key, f, prev.0, prev.1, s1, id, nf);
      (s1, nf)
  }

  lemma WeldFaceStep<K(!new)>(verts: seq<Vertex>, key: Vertex -> K, f: Face, s0: WeldState<K>, nf0: Face,
                              s1: WeldState<K>, id: int, nf: Face)
    requires |f| > 0 && IndicesIn(f, 0, |verts|)
    requires s0.verts <= s1.verts
    requires IndicesIn(nf0, 0, |s0.verts|) && DistinctIndices(nf0)
    requires KeysOf(s0.verts, key, nf0) == Dedup(KeysOf(verts, key, f[..|f| - 1]))
    requires 0 <= id < |s1.verts| && key(s1.verts[id]) == key(verts[f[|f| - 1]])
    requires id in nf0 <==> key(s1.verts[id]) in KeysOf(s1.verts, key, nf0)
    requires nf == if id in nf0 then nf0 else nf0 + [id]
    ensures IndicesIn(nf, 0, |s1.verts|) && DistinctIndices(nf)
    ensures KeysOf(s1.verts, key, nf) == Dedup(KeysOf(verts, key, f))
  {
    var k := key(verts[f[|f| - 1]]);
    AppendNewIndex(nf0, id, |s1.verts|, nf);
    var init := f[..|f| - 1];
    assert f == init + [f[|f| - 1]];
    KeysOfSnoc(verts, key, init, f[|f| - 1]);
    var d := Dedup(KeysOf(verts, key, init));
    DedupSnoc(KeysOf(verts, key, init), k);
    assert Dedup(KeysOf(verts, key, f)) == if k in d then d else d + [k];
    KeysOfGrow(s0.verts, s1.verts, key, nf0);
    assert KeysOf(s1.verts, key, nf0) == d;
    if id !in nf0 {
      assert k !in d;
      KeysOfSnoc(s1.verts, key, nf0, id);
    } else {
      assert k in d;
    }
  }

  /** Appending an index only when it is new keeps a face's indices distinct and in range. */
  lemma AppendNewIndex(f: Face, id: int, hi: int, nf: Face)
    requires IndicesIn(f, 0, hi) && DistinctIndices(f) && 0 <= id < hi
    requires nf == if id in f then f else f + [id]
    ensures IndicesIn(nf, 0, hi) && DistinctIndices(nf)
  {
  }

  /** Growing the vertex list at the end leaves the keys of a face over the old part unchanged. */
  lemma KeysOfGrow<K>(a: seq<Vertex>, b: seq<Vertex>, key: Vertex -> K, f: Face)
    requires a <= b && IndicesIn(f, 0, |a|)
    ensures KeysOf(b, key, f) == KeysOf(a, key, f)
  {
  }

  /** The keys of a face with one more index are the old keys and the key of that index. */
  lemma KeysOfSnoc<K>(verts: seq<Vertex>, key: Vertex -> K, f: Face, id: int)
    requires IndicesIn(f, 0, |verts|) && 0 <= id < |verts|
    ensures KeysOf(verts, key, f + [id]) == KeysOf(verts, key, f) + [key(verts[id])]
  {
  }

  /** Dedup of a sequence extended by one element keeps or appends that element. */
  lemma DedupSnoc<K(!new)>(s: seq<K>, k: K)
    ensures Dedup(s + [k]) == if k in Dedup(s) then Dedup(s) else Dedup(s) + [k]
  {
    assert (s + [k])[..|s|] == s;
  }

  /** Under a consistent dictionary, an index is in a face exactly when its key is. */
  lemma KeyInFaceIff<K(!new)>(key: Vertex -> K, st: WeldState<K>, f: Face, id: int)
    requires Consistent(key, st)
    requires IndicesIn(f, 0, |st.verts|) && 0 <= id < |st.verts|
    ensures id in f <==> key(st.verts[id]) in KeysOf(st.verts, key, f)
  {
    var ks := KeysOf(st.verts, key, f);
    if key(st.verts[id]) in ks {
      var t :| 0 <= t < |f| && ks[t] == key(st.verts[id]);
      assert st.ids[key(st.verts[f[t]])] == f[t];
      assert f[t] == id;
    }
    if id in f {
      var t :| 0 <= t < |f| && f[t] == id;
      assert ks[t] == key(st.verts[id]);
    }
  }

  /** The outer loop over the first faces: the state and the kept faces. */
  function WeldFaces<K(==,!new)>(verts: seq<Vertex>, key: Vertex -> K, faces: seq<Face>): (r: (WeldState<K>, seq<Face>))
    requires FacesIn(faces, 0, |verts|)
    ensures Consistent(key, r.0)
    ensures |r.1| == |Kept(verts, key, faces)|
    ensures forall q :: 0 <= q < |r.1| ==> WellShaped(r.1[q]) && IndicesIn(r.1[q], 0, |r.0.verts|)
    ensures forall q :: 0 <= q < |r.1| ==>
      KeysOf(r.0.verts, key, r.1[q]) == Dedup(KeysOf(verts, key, Kept(verts, key, faces)[q]))
  {
    if faces == [] then (WeldState(map[], []), [])
    else
      var init := faces[..|faces| - 1];
      var f := faces[|faces| - 1];
      var prev := WeldFaces(verts, key, init);
      var w := WeldFace(verts, key, prev.0, f);
      var nf := w.1;
      var out := if |nf| == 3 || |nf| == 4 then prev.1 + [nf] else prev.1;
      WeldFacesStep(verts, key, faces, prev.0, prev.1, w.0, nf, out);
      (w.0, out)
  }

  lemma WeldFacesStep<K(!new)>(verts: seq<Vertex>, key: Vertex -> K, faces: seq<Face>,
                         s0: WeldState<K>, out0: seq<Face>, s1: WeldState<K>, nf: Face, out: seq<Face>)
    requires |faces| > 0 && FacesIn(faces, 0, |verts|)
    requires s0.verts <= s1.verts
    requires |out0| == |Kept(verts, key, faces[..|faces| - 1])|
    requires forall q :: 0 <= q < |out0| ==> WellShaped(out0[q]) && IndicesIn(out0[q], 0, |s0.verts|)
    requires forall q :: 0 <= q < |out0| ==>
      KeysOf(s0.verts, key, out0[q]) == Dedup(KeysOf(verts, key, Kept(verts, key, faces[..|faces| - 1])[q]))
    requires IndicesIn(nf, 0, |s1.verts|) && DistinctIndices(nf)
    requires KeysOf(s1.verts, key, nf) == Dedup(KeysOf(verts, key, faces[|faces| - 1]))
    requires out == if |nf| == 3 || |nf| == 4 then out0 + [nf] else out0
    ensures |out| == |Kept(verts, key, faces)|
    ensures forall q :: 0 <= q < |out| ==> WellShaped(out[q]) && IndicesIn(out[q], 0, |s1.verts|)
    ensures forall q :: 0 <= q < |out| ==>
      KeysOf(s1.verts, key, out[q]) == Dedup(KeysOf(verts, key, Kept(verts, key, faces)[q]))
  {
    var init := faces[..|faces| - 1];
    assert |nf| == |Dedup(KeysOf(verts, key, faces[|faces| - 1]))|;
    forall q | 0 <= q < |out0|
      ensures KeysOf(s1.verts, key, out0[q]) == KeysOf(s0.verts, key, out0[q])
    {
    }
  }

  /** The dictionary holds exactly the keys of the new vertex list. */
  lemma ConsistentKeys<K(!new)>(key: Vertex -> K, st: WeldState<K>, k: K)
    requires Consistent(key, st)
    ensures k in st.ids <==> k in KeySeq(key, st.verts)
  {
    if k in st.ids {
      assert KeySeq(key, st.verts)[st.ids[k]] == k;
    }
  }

  /** Welding one face extends the new vertex list as DedupBy of the visited corners. */
  lemma {:induction false} WeldFaceVerts<K(!new)>(verts: seq<Vertex>, key: Vertex -> K, st: WeldState<K>, f: Face,
                                                  stream: seq<Vertex>)
    requires IndicesIn(f, 0, |verts|) && Consistent(key, st)
    requires st.verts == DedupBy(key, stream)
    ensures WeldFace(verts, key, st, f).0.verts == DedupBy(key, stream + FaceVerts(verts, f))
  {
    if f == [] {
      assert stream + FaceVerts(verts, f) == stream;
    } else {
      var init := f[..|f| - 1];
      WeldFaceVerts(verts, key, st, init, stream);
      var s0 := WeldFace(verts, key, st, init).0;
      var v := verts[f[|f| - 1]];
      FaceVertsSnoc(verts, f);
      ConcatSnoc(stream, FaceVerts(verts, init), v);
      assert WeldFace(verts, key, st, f).0 == Register(verts, key, s0, f[|f| - 1]);
      RegisterDedupBy(verts, key, s0, f[|f| - 1], stream + FaceVerts(verts, init));
    }
  }

  lemma ConcatSnoc<T>(a: seq<T>, b: seq<T>, v: T)
    ensures a + (b + [v]) == (a + b) + [v]
  {
  }

  /** One registration is one step of DedupBy. */
  lemma RegisterDedupBy<K(!new)>(verts: seq<Vertex>, key: Vertex -> K, st: WeldState<K>, idx: int, stream: seq<Vertex>)
    requires 0 <= idx < |verts| && Consistent(key, st)
    requires st.verts == DedupBy(key, stream)
    ensures Register(verts, key, st, idx).verts == DedupBy(key, stream + [verts[idx]])
  {
    var s' := stream + [verts[idx]];
    assert s'[..|s'| - 1] == stream;
    ConsistentKeys(key, st, key(verts[idx]));
  }

  /** The whole outer loop produces DedupBy of every corner vertex. */
  lemma {:induction false} WeldFacesVerts<K(!new)>(verts: seq<Vertex>, key: Vertex -> K, faces: seq<Face>)
    requires FacesIn(faces, 0, |verts|)
    ensures WeldFaces(verts, key, faces).0.verts == DedupBy(key, CornerVerts(verts, faces))
  {
    if faces != [] {
      var init := faces[..|faces| - 1];
      WeldFacesVerts(verts, key, init);
      WeldFaceVerts(verts, key, WeldFaces(verts, key, init).0, faces[|faces| - 1], CornerVerts(verts, init));
    }
  }

  /**
    RemoveDoubles. Every face index must address an input vertex. In the
    source an index at or past the vertex count raises an IndexError, and a
    negative one would wrap round to a vertex counted from the end; no
    builder produces either.
   */
  function RemoveDoubles<K(==,!new)>(verts: seq<Vertex>, faces: seq<Face>, key: Vertex -> K): (r: Fragment)
    requires FacesIn(faces, 0, |verts|)
    // the weld output is a valid mesh of well-shaped faces, never more than the input
    ensures ValidMesh(r)
    ensures forall q :: 0 <= q < |r.faces| ==> WellShaped(r.faces[q])
    ensures |r.faces| <= |faces|
    // the new vertices are pairwise non-doubles
    ensures forall i, j :: 0 <= i < j < |r.verts| ==> key(r.verts[i]) != key(r.verts[j])
  {
    var w := WeldFaces(verts, key, faces);
    var r := Fragment(w.0.verts, w.1);
    assert forall i, j :: 0 <= i < j < |r.verts| ==> key(r.verts[i]) != key(r.verts[j]) by {
      forall i, j | 0 <= i < j < |r.verts|
        ensures key(r.verts[i]) != key(r.verts[j])
      {
        assert w.0.ids[key(r.verts[i])] == i;
      }
    }
    r
  }

  /**
    What RemoveDoubles computes, against the reference definitions: the new
    vertices are the first corner vertex of every key, in corner order; the
    surviving faces are exactly the input faces with 3 or 4 distinct keys,
    each re-indexed onto the vertices of its keys, in its own corner order.
   */
  lemma RemoveDoublesSpec<K(!new)>(verts: seq<Vertex>, faces: seq<Face>, key: Vertex -> K)
    requires FacesIn(faces, 0, |verts|)
    ensures var r := RemoveDoubles(verts, faces, key);
      && r.verts == DedupBy(key, CornerVerts(verts, faces))
      && |r.faces| == |Kept(verts, key, faces)|
      && forall q :: 0 <= q < |r.faces| ==>
           KeysOf(r.verts, key, r.faces[q]) == Dedup(KeysOf(verts, key, Kept(verts, key, faces)[q]))
  {
    WeldFacesVerts(verts, key, faces);
  }

  /** Faces whose corner keys are already distinct triangles or quads all survive. */
  lemma {:induction false} KeptAll<K(!new)>(verts: seq<Vertex>, key: Vertex -> K, faces: seq<Face>)
    requires FacesIn(faces, 0, |verts|)
    requires forall q :: 0 <= q < |faces| ==> |faces[q]| == 3 || |faces[q]| == 4
    requires forall q :: 0 <= q < |faces| ==> Dedup(KeysOf(verts, key, faces[q])) == KeysOf(verts, key, faces[q])
    ensures Kept(verts, key, faces) == faces
  {
    if faces != [] {
      var init, f := faces[..|faces| - 1], faces[|faces| - 1];
      assert forall q :: 0 <= q < |init| ==> init[q] == faces[q];
      KeptAll(verts, key, init);
      assert Dedup(KeysOf(verts, key, f)) == KeysOf(verts, key, f);
      assert |Dedup(KeysOf(verts, key, f))| == |f|;
      assert faces == init + [f];
    }
  }

  /** A second weld keeps every face of the first, with the same corner keys in the same order. */
  lemma RemoveDoublesFacesStable<K(!new)>(verts: seq<Vertex>, faces: seq<Face>, key: Vertex -> K)
    requires FacesIn(faces, 0, |verts|)
    ensures var r := RemoveDoubles(verts, faces, key);
      var r2 := RemoveDoubles(r.verts, r.faces, key);
      |r2.faces| == |r.faces|
      && forall q :: 0 <= q < |r.faces| ==> KeysOf(r2.verts, key, r2.faces[q]) == KeysOf(r.verts, key, r.faces[q])
  {
    var r := RemoveDoubles(verts, faces, key);
    RemoveDoublesSpec(verts, faces, key);
    RemoveDoublesSpec(r.verts, r.faces, key);
    forall q | 0 <= q < |r.faces|
      ensures Dedup(KeysOf(r.verts, key, r.faces[q])) == KeysOf(r.verts, key, r.faces[q])
    {
      DedupOfDistinct(KeysOf(r.verts, key, r.faces[q]));
    }
    KeptAll(r.verts, key, r.faces);
  }

  /**
    The vertex count is not stable under a second weld: a triangle whose two
    corners coincide is dropped, but its two positions stay in the result
    (WeldCollapsedTriangle), and a second weld, now without faces, removes
    them (WeldNoFaces).
   */
  lemma WeldCollapsedTriangle(a: Vertex, b: Vertex)
    requires a != b
    ensures RemoveDoubles([a, a, b], [[0, 1, 2]], Exact) == Fragment([a, b], [])
  {
    var verts, faces := [a, a, b], [[0, 1, 2]];
    assert FacesIn(faces, 0, |verts|) by {
      assert faces[0] == [0, 1, 2];
    }
    var r := RemoveDoubles(verts, faces, Exact);
    RemoveDoublesSpec(verts, faces, Exact);
    CollapsedTriangleParts(a, b);
    assert r.verts == [a, b];
    assert |r.faces| == 0;
  }

  lemma CollapsedTriangleParts(a: Vertex, b: Vertex)
    requires a != b
    ensures DedupBy(Exact, CornerVerts([a, a, b], [[0, 1, 2]])) == [a, b]
    ensures Kept([a, a, b], Exact, [[0, 1, 2]]) == []
  {
    var verts, faces := [a, a, b], [[0, 1, 2]];
    FaceVertsOfTriangle(verts);
    assert faces[..0] == [];
    assert CornerVerts(verts, faces) == [a, a, b];
    DedupTwoOfThree(a, b);
  }

  /** Without faces the weld keeps no vertex at all. */
  lemma WeldNoFaces(verts: seq<Vertex>)
    ensures RemoveDoubles(verts, [], Exact) == Fragment([], [])
  {
    RemoveDoublesSpec(verts, [], Exact);
  }

  lemma FaceVertsOfTriangle(verts: seq<Vertex>)
    requires |verts| == 3
    ensures FaceVerts(verts, [0, 1, 2]) == verts
    ensures KeysOf(verts, Exact, [0, 1, 2]) == verts
  {
    var fv := FaceVerts(verts, [0, 1, 2]);
    assert fv[0] == verts[0] && fv[1] == verts[1] && fv[2] == verts[2];
    var ks := KeysOf(verts, Exact, [0, 1, 2]);
    assert ks[0] == verts[0] && ks[1] == verts[1] && ks[2] == verts[2];
  }

  /** The key that merges only identical positions. */
  function Exact(v: Vertex): Vertex { v }

  lemma DedupTwoOfThree(a: Vertex, b: Vertex)
    requires a != b
    ensures DedupBy(Exact, [a, a, b]) == [a, b]
    ensures Dedup([a, a, b]) == [a, b]
  {
    assert [a, a, b][..2] == [a, a];
    assert [a, a][..1] == [a];
    assert [a][..0] == [];
    assert KeySeq(Exact, [a]) == [a];
  }
}
