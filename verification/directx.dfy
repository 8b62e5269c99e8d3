/**
  The DirectX (.x) exporter's naming helpers: turning a host object name
  into a legal .x template identifier, counting a mesh's face corners for
  the MeshNormals/MeshTextureCoords headers, and the `.x` suffix given to
  the export path.
 */
module DirectX {
  import opened Geometry

  /** Replace every occurrence of the character `a` in `s` by `b`, as str.replace does for one character. */
  function Replace(s: string, a: char, b: char): (r: string)
    ensures |r| == |s|
    ensures forall i :: 0 <= i < |s| ==> r[i] == (if s[i] == a then b else s[i])
  {
    if s == [] then [] else [if s[0] == a then b else s[0]] + Replace(s[1..], a, b)
  }

  /** Replacing a character that does not occur changes nothing. */
  lemma {:induction false} ReplaceAbsent(s: string, a: char, b: char)
    requires a !in s
    ensures Replace(s, a, b) == s
  {
    if s != [] {
      assert s[0] != a;
      ReplaceAbsent(s[1..], a, b);
    }
  }

  /** The keywords of the .x template language, which cannot name a frame or mesh. */
  const Reserved: seq<string> := [
    "ARRAY", "DWORD", "UCHAR", "BINARY", "FLOAT", "ULONGLONG", "BINARY_RESOURCE", "SDWORD",
    "UNICODE", "CHAR", "STRING", "WORD", "CSTRING", "SWORD", "DOUBLE", "TEMPLATE"]

  /** str.isdigit on one character, for the ASCII digits. */
  predicate IsDigit(c: char) { '0' <= c <= '9' }

  /** A name LegalName leaves alone: no dot, no space, not starting with a digit, not a keyword. */
  predicate Legal(name: string) {
    |name| > 0 && '.' !in name && ' ' !in name && !IsDigit(name[0]) && name !in Reserved
  }

  /** The name with dots and then spaces turned into underscores. */
  function Underscored(name: string): string {
    Replace(Replace(name, '.', '_'), ' ', '_')
  }

  /**
    LegalName: dots and spaces become underscores, and an underscore is put
    in front when the name then starts with a digit or is a keyword. An
    empty name is outside the source's domain (it indexes the first
    character).
   */
  function LegalName(name: string): (r: string)
    requires |name| > 0
    ensures Legal(r)
    ensures |r| == |name| || |r| == |name| + 1
    ensures |r| == |name| + 1 <==> IsDigit(name[0]) || Underscored(name) in Reserved
    ensures |r| == |name| + 1 ==> r[0] == '_'
    ensures forall i :: 0 <= i < |name| ==>
      r[|r| - |name| + i] == (if name[i] == '.' || name[i] == ' ' then '_' else name[i])
  {
    var s := Underscored(name);
    UnderscoredChars(name);
    if IsDigit(s[0]) || s in Reserved then PrefixedNotReserved(s); "_" + s else s
  }

  /** Underscoring keeps the length, leaves no dot or space, and changes only dots and spaces. */
  lemma UnderscoredChars(name: string)
    ensures |Underscored(name)| == |name|
    ensures '.' !in Underscored(name) && ' ' !in Underscored(name)
    ensures forall i :: 0 <= i < |name| ==>
      Underscored(name)[i] == (if name[i] == '.' || name[i] == ' ' then '_' else name[i])
  {
  }

  /** No keyword starts with an underscore, so a prefixed name is never one. */
  lemma PrefixedNotReserved(s: string)
    ensures "_" + s !in Reserved
  {
    forall k | 0 <= k < |Reserved|
      ensures Reserved[k] != "_" + s
    {
      assert Reserved[k][0] != '_';
    }
  }

  /** A legal name is its own LegalName. */
  lemma LegalFixed(name: string)
    requires Legal(name)
    ensures LegalName(name) == name
  {
    ReplaceAbsent(name, '.', '_');
    ReplaceAbsent(name, ' ', '_');
  }

  /** LegalName is idempotent: applying it to its own result changes nothing. */
  lemma LegalNameIdempotent(name: string)
    requires |name| > 0
    ensures LegalName(LegalName(name)) == LegalName(name)
  {
    LegalFixed(LegalName(name));
  }

  /** Sum of the face sizes: every corner of every face counted once. */
  function Corners(faces: seq<Face>): nat
    decreases |faces|
  {
    if faces == [] then 0 else Corners(faces[..|faces| - 1]) + |faces[|faces| - 1]|
  }

  /** GetMeshVertexCount: the loop adding up len(Face.verts) over the mesh's faces. */
  method GetMeshVertexCount(faces: seq<Face>) returns (count: nat)
    ensures count == Corners(faces)
  {
    count := 0;
    var i := 0;
    while i < |faces|
      invariant 0 <= i <= |faces| && count == Corners(faces[..i])
    {
      assert faces[..i + 1][..i] == faces[..i];
      count := count + |faces[i]|;
      i := i + 1;
    }
    assert faces[..|faces|] == faces;
  }

  /** Counting corners over two runs of faces adds up. */
  lemma {:induction false} CornersConcat(a: seq<Face>, b: seq<Face>)
    ensures Corners(a + b) == Corners(a) + Corners(b)
    decreases |b|
  {
    if b == [] {
      assert a + b == a;
    } else {
      var b' := b[..|b| - 1];
      assert (a + b)[..|a + b| - 1] == a + b';
      CornersConcat(a, b');
    }
  }

  /** Triangles and quads have 3 or 4 corners, so the count lies between 3 and 4 per face. */
  lemma {:induction false} CornersBounds(faces: seq<Face>)
    requires AllShaped(faces)
    ensures 3 * |faces| <= Corners(faces) <= 4 * |faces|
    decreases |faces|
  {
    if faces != [] {
      var init := faces[..|faces| - 1];
      assert forall j :: 0 <= j < |init| ==> init[j] == faces[j];
      CornersBounds(init);
      assert WellShaped(faces[|faces| - 1]);
    }
  }

  /** The path ends in ".x" regardless of case, as path.lower().endswith(".x") checks. */
  predicate EndsWithX(path: string) {
    |path| >= 2 && path[|path| - 2] == '.' && (path[|path| - 1] == 'x' || path[|path| - 1] == 'X')
  }

  /** The exporter's execute: ".x" is appended unless the path already ends in it, in either case. */
  function ExportPath(path: string): (r: string)
    ensures EndsWithX(r)
    ensures |r| >= |path| && r[..|path|] == path && (|r| == |path| || r == path + ".x")
    ensures r == path <==> EndsWithX(path)
  {
    if EndsWithX(path) then path else path + ".x"
  }

  /** A second pass leaves the export path alone. */
  lemma ExportPathIdempotent(path: string)
    ensures ExportPath(ExportPath(path)) == ExportPath(path)
  {
  }

  /** The path ends in ".blend" (case-sensitive, as str.endswith). */
  predicate EndsWithBlend(path: string) {
    |path| >= 6 && path[|path| - 6..] == ".blend"
  }

  /** menu_func's default path: the .blend file's path with its ".blend" replaced by ".x". */
  function DefaultPath(blendPath: string): (r: string)
    ensures EndsWithBlend(blendPath) ==>
      (|r| == |blendPath| - 4 && EndsWithX(r) && r[..|r| - 2] == blendPath[..|blendPath| - 6])
    ensures !EndsWithBlend(blendPath) ==> r == blendPath
  {
    if EndsWithBlend(blendPath) then blendPath[..|blendPath| - 6] + ".x" else blendPath
  }

  /**
    Menu then export: the default path of a saved .blend file is kept as it
    is, and an unsaved file's empty path becomes just ".x".
   */
  lemma DefaultThenExport(blendPath: string)
    ensures EndsWithBlend(blendPath) ==> ExportPath(DefaultPath(blendPath)) == DefaultPath(blendPath)
    ensures ExportPath(DefaultPath("")) == ".x"
  {
  }
}
