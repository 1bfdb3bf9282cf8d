/**
 * LoadOBJ of objLoader.cpp: a Wavefront OBJ file is read line by line into
 * temporary position, texture-coordinate and normal lists and three lists of
 * 1-based face indices; then every face corner is resolved through its
 * indices and the resulting values are appended to the global `vertices`,
 * `uvs` and `normals` buffers.
 *
 * Lines arrive already tokenised (an ObjLine); reading the file and turning
 * text into numbers are not part of this model.
 */
module Obj {
  import opened Wrappers

  /** One `v/vt/vn` corner of a face: 1-based indices of a position, a texture coordinate and a normal. */
  datatype Corner = Corner(v: nat, vt: nat, vn: nat)

  /**
   * One line of the file as the tokeniser hands it over: its first word,
   * the numbers after it, and the corners when it is a face line.
   */
  datatype ObjLine = ObjLine(prefix: string, numbers: seq<real>, corners: seq<Corner>)

  /** The `k`-th number of a line; a number the line lacks reads as 0. */
  function Number(line: ObjLine, k: nat): real
  {
    if k < |line.numbers| then line.numbers[k] else 0.0
  }

  /** The three corners a face line is read as; a corner the line lacks reads as all zeros. */
  function FaceCorners(line: ObjLine): (cs: seq<Corner>)
    ensures |cs| == 3
  {
    seq(3, k requires 0 <= k < 3 => if k < |line.corners| then line.corners[k] else Corner(0, 0, 0))
  }

  /** What LoadOBJ collects while reading: the `temp_*` lists and the three index lists. */
  datatype Lists = Lists(vertices: seq<real>, uvs: seq<real>, normals: seq<real>,
                         vertexIndices: seq<nat>, uvIndices: seq<nat>, normalIndices: seq<nat>)

  const NoLists: Lists := Lists([], [], [], [], [], [])

  /** The dispatch on a line's first word: "v", "vt", "vn" and "f" extend their lists; other lines are skipped. */
  function ReadLine(t: Lists, line: ObjLine): (r: Lists)
    ensures line.prefix != "v" ==> r.vertices == t.vertices
    ensures line.prefix != "vt" ==> r.uvs == t.uvs
    ensures line.prefix != "vn" ==> r.normals == t.normals
    ensures line.prefix != "f" ==>
      r.vertexIndices == t.vertexIndices && r.uvIndices == t.uvIndices && r.normalIndices == t.normalIndices
  {
    if line.prefix == "v" then
      t.(vertices := t.vertices + [Number(line, 0), Number(line, 1), Number(line, 2)])
    else if line.prefix == "vt" then
      t.(uvs := t.uvs + [Number(line, 0), Number(line, 1)])
    else if line.prefix == "vn" then
      t.(normals := t.normals + [Number(line, 0), Number(line, 1), Number(line, 2)])
    else if line.prefix == "f" then
      var cs := FaceCorners(line);
      t.(vertexIndices := t.vertexIndices + [cs[0].v, cs[1].v, cs[2].v],
         uvIndices := t.uvIndices + [cs[0].vt, cs[1].vt, cs[2].vt],
         normalIndices := t.normalIndices + [cs[0].vn, cs[1].vn, cs[2].vn])
    else t
  }

  /** The lists after reading all of `lines` in order. */
  function ReadLines(lines: seq<ObjLine>): (t: Lists)
    ensures |t.uvIndices| == |t.vertexIndices| && |t.normalIndices| == |t.vertexIndices|
    ensures |t.vertexIndices| % 3 == 0
    decreases |lines|
  {
    if |lines| == 0 then NoLists else ReadLine(ReadLines(lines[..|lines| - 1]), lines[|lines| - 1])
  }

  /** How many of `lines` start with the word `prefix`. */
  function Count(lines: seq<ObjLine>, prefix: string): nat
    decreases |lines|
  {
    if |lines| == 0 then 0
    else Count(lines[..|lines| - 1], prefix) + (if lines[|lines| - 1].prefix == prefix then 1 else 0)
  }

  /** Reading one more line is one more step of the dispatch. */
  lemma ReadLinesSnoc(lines: seq<ObjLine>, n: nat)
    requires n < |lines|
    ensures ReadLines(lines[..n + 1]) == ReadLine(ReadLines(lines[..n]), lines[n])
  {
    assert lines[..n + 1][..n] == lines[..n];
  }

  /**
   * One line extends exactly one group of lists, by 3 values for "v" and "vn",
   * 2 for "vt" and 3 indices each for "f", keeping what was there; any other
   * first word changes nothing.
   */
  lemma ReadLineExtends(t: Lists, line: ObjLine)
    ensures var r := ReadLine(t, line);
      t.vertices <= r.vertices && t.uvs <= r.uvs && t.normals <= r.normals &&
      t.vertexIndices <= r.vertexIndices && t.uvIndices <= r.uvIndices && t.normalIndices <= r.normalIndices &&
      |r.vertices| == |t.vertices| + (if line.prefix == "v" then 3 else 0) &&
      |r.uvs| == |t.uvs| + (if line.prefix == "vt" then 2 else 0) &&
      |r.normals| == |t.normals| + (if line.prefix == "vn" then 3 else 0) &&
      |r.vertexIndices| == |t.vertexIndices| + (if line.prefix == "f" then 3 else 0) &&
      |r.uvIndices| == |t.uvIndices| + (if line.prefix == "f" then 3 else 0) &&
      |r.normalIndices| == |t.normalIndices| + (if line.prefix == "f" then 3 else 0) &&
      (line.prefix != "v" && line.prefix != "vt" && line.prefix != "vn" && line.prefix != "f" ==> r == t)
  {
  }

  /**
   * After reading a file, each list holds 3 (or 2, for "vt") values per line
   * of its kind, and the three index lists have the same length: 3 per face.
   */
  lemma {:induction false} ReadLinesSizes(lines: seq<ObjLine>)
    ensures var t := ReadLines(lines);
      |t.vertices| == 3 * Count(lines, "v") && |t.uvs| == 2 * Count(lines, "vt") &&
      |t.normals| == 3 * Count(lines, "vn") &&
      |t.vertexIndices| == 3 * Count(lines, "f") &&
      |t.uvIndices| == |t.vertexIndices| && |t.normalIndices| == |t.vertexIndices|
    decreases |lines|
  {
    if |lines| > 0 {
      var init := lines[..|lines| - 1];
      ReadLinesSizes(init);
      ReadLineExtends(ReadLines(init), lines[|lines| - 1]);
    }
  }

  /**
   * The `k`-th line, a "v" line, fills slots 3c .. 3c + 2 of the position list,
   * where c is the number of "v" lines before it: the 1-based position index c + 1
   * names that line's numbers.
   */
  lemma {:induction false} ReadLinesVertexAt(lines: seq<ObjLine>, k: nat, m: nat)
    requires k < |lines| && lines[k].prefix == "v" && m < 3
    ensures var t := ReadLines(lines); var at := 3 * Count(lines[..k], "v") + m;
      at < |t.vertices| && t.vertices[at] == Number(lines[k], m)
    decreases |lines|
  {
    var n := |lines| - 1;
    var init := lines[..n];
    ReadLineExtends(ReadLines(init), lines[n]);
    if k == n {
      assert lines[..k] == init;
      ReadLinesSizes(init);
    } else {
      assert init[k] == lines[k] && init[..k] == lines[..k];
      ReadLinesVertexAt(init, k, m);
    }
  }

  /** The same for a "vt" line: its two numbers sit at 2c and 2c + 1 of the texture-coordinate list. */
  lemma {:induction false} ReadLinesUvAt(lines: seq<ObjLine>, k: nat, m: nat)
    requires k < |lines| && lines[k].prefix == "vt" && m < 2
    ensures var t := ReadLines(lines); var at := 2 * Count(lines[..k], "vt") + m;
      at < |t.uvs| && t.uvs[at] == Number(lines[k], m)
    decreases |lines|
  {
    var n := |lines| - 1;
    var init := lines[..n];
    ReadLineExtends(ReadLines(init), lines[n]);
    if k == n {
      assert lines[..k] == init;
      ReadLinesSizes(init);
    } else {
      assert init[k] == lines[k] && init[..k] == lines[..k];
      ReadLinesUvAt(init, k, m);
    }
  }

  /** The same for a "vn" line: its three numbers sit at 3c .. 3c + 2 of the normal list. */
  lemma {:induction false} ReadLinesNormalAt(lines: seq<ObjLine>, k: nat, m: nat)
    requires k < |lines| && lines[k].prefix == "vn" && m < 3
    ensures var t := ReadLines(lines); var at := 3 * Count(lines[..k], "vn") + m;
      at < |t.normals| && t.normals[at] == Number(lines[k], m)
    decreases |lines|
  {
    var n := |lines| - 1;
    var init := lines[..n];
    ReadLineExtends(ReadLines(init), lines[n]);
    if k == n {
      assert lines[..k] == init;
      ReadLinesSizes(init);
    } else {
      assert init[k] == lines[k] && init[..k] == lines[..k];
      ReadLinesNormalAt(init, k, m);
    }
  }

  /**
   * The `k`-th line, an "f" line, puts its corners' indices at 3c .. 3c + 2 of
   * the three index lists, where c is the number of faces before it.
   */
  lemma {:induction false} ReadLinesFaceAt(lines: seq<ObjLine>, k: nat, c: nat)
    requires k < |lines| && lines[k].prefix == "f" && c < 3
    ensures var t := ReadLines(lines); var at := 3 * Count(lines[..k], "f") + c;
      at < |t.vertexIndices| && t.vertexIndices[at] == FaceCorners(lines[k])[c].v &&
      t.uvIndices[at] == FaceCorners(lines[k])[c].vt && t.normalIndices[at] == FaceCorners(lines[k])[c].vn
    decreases |lines|
  {
    var n := |lines| - 1;
    var init := lines[..n];
    ReadLineExtends(ReadLines(init), lines[n]);
    if k == n {
      assert lines[..k] == init;
      ReadLinesSizes(init);
    } else {
      assert init[k] == lines[k] && init[..k] == lines[..k];
      ReadLinesFaceAt(init, k, c);
    }
  }

  /** Every index in `idx` names one of the `width`-wide groups of `pool` (1-based). */
  ghost predicate IndicesIn(pool: seq<real>, idx: seq<nat>, width: nat)
  {
    forall i :: 0 <= i < |idx| ==> 1 <= idx[i] && idx[i] * width <= |pool|
  }

  /** The indices of every face corner resolve: the accesses LoadOBJ makes without checking. */
  ghost predicate Resolvable(t: Lists)
  {
    IndicesIn(t.vertices, t.vertexIndices, 3) && IndicesIn(t.uvs, t.uvIndices, 2) &&
    IndicesIn(t.normals, t.normalIndices, 3)
  }

  /** The values of the groups the first `n` indices name, in order, `width` values per index. */
  function GatherFirst(pool: seq<real>, idx: seq<nat>, width: nat, n: nat): (r: seq<real>)
    requires IndicesIn(pool, idx, width)
    requires n <= |idx|
    ensures |r| == width * n
    decreases n
  {
    if n == 0 then []
    else GatherFirst(pool, idx, width, n - 1) + pool[(idx[n - 1] - 1) * width .. idx[n - 1] * width]
  }

  /** The values of the groups all of `idx` names. */
  function Gather(pool: seq<real>, idx: seq<nat>, width: nat): (r: seq<real>)
    requires IndicesIn(pool, idx, width)
    ensures |r| == width * |idx|
  {
    GatherFirst(pool, idx, width, |idx|)
  }

  /** One more group of `w` values: `w * (k + 1) == w * k + w`. */
  lemma MulStep(w: nat, k: nat)
    ensures w * (k + 1) == w * k + w
  {
  }

  /** A group of three values, as the loop appends it. */
  lemma TripleAt(pool: seq<real>, b: nat)
    requires b + 3 <= |pool|
    ensures pool[b .. b + 3] == [pool[b + 0], pool[b + 1], pool[b + 2]]
  {
  }

  /** A group of two values, as the loop appends it. */
  lemma PairAt(pool: seq<real>, b: nat)
    requires b + 2 <= |pool|
    ensures pool[b .. b + 2] == [pool[b + 0], pool[b + 1]]
  {
  }

  /** Value `j` of corner `i` is value `j` of the group corner `i` names. */
  lemma {:induction false} GatherAt(pool: seq<real>, idx: seq<nat>, width: nat, n: nat, i: nat, j: nat)
    requires IndicesIn(pool, idx, width)
    requires i < n <= |idx| && j < width
    ensures width * i + j < width * n
    ensures GatherFirst(pool, idx, width, n)[width * i + j] == pool[(idx[i] - 1) * width + j]
    decreases n
  {
    var m := n - 1;
    assert 1 <= idx[m] && idx[m] * width <= |pool|;
    MulStep(width, idx[m] - 1);
    var front := GatherFirst(pool, idx, width, m);
    var group := pool[(idx[m] - 1) * width .. idx[m] * width];
    assert GatherFirst(pool, idx, width, n) == front + group;
    MulStep(width, m);
    if i < m {
      GatherAt(pool, idx, width, m, i, j);
      assert (front + group)[width * i + j] == front[width * i + j];
    } else {
      assert width * i + j == |front| + j;
      assert (front + group)[|front| + j] == group[j];
    }
  }

  /**
   * Reading a whole file and resolving its faces yields 9 position values,
   * 6 texture-coordinate values and 9 normal values per face line.
   */
  lemma LoadedSizes(lines: seq<ObjLine>)
    requires Resolvable(ReadLines(lines))
    ensures var t := ReadLines(lines);
      |Gather(t.vertices, t.vertexIndices, 3)| == 9 * Count(lines, "f") &&
      |Gather(t.uvs, t.uvIndices, 2)| == 6 * Count(lines, "f") &&
      |Gather(t.normals, t.normalIndices, 3)| == 9 * Count(lines, "f")
  {
    ReadLinesSizes(lines);
  }

  /**
   * The reading loop of LoadOBJ: dispatches every line, in order, to the
   * temporary lists.
   */
  method ReadAll(lines: seq<ObjLine>) returns (t: Lists)
    ensures t == ReadLines(lines)
  {
    var tempVertices, tempUvs, tempNormals: seq<real> := [], [], [];
    var vertexIndices, uvIndices, normalIndices: seq<nat> := [], [], [];
    var n := 0;
    while n < |lines|
      invariant 0 <= n <= |lines|
      invariant Lists(tempVertices, tempUvs, tempNormals, vertexIndices, uvIndices, normalIndices)
                == ReadLines(lines[..n])
    {
      var line := lines[n];
      ghost var before := Lists(tempVertices, tempUvs, tempNormals, vertexIndices, uvIndices, normalIndices);
      if line.prefix == "v" {
        tempVertices := tempVertices + [Number(line, 0), Number(line, 1), Number(line, 2)];
      } else if line.prefix == "vt" {
        tempUvs := tempUvs + [Number(line, 0), Number(line, 1)];
      } else if line.prefix == "vn" {
        tempNormals := tempNormals + [Number(line, 0), Number(line, 1), Number(line, 2)];
      } else if line.prefix == "f" {
        var cs := FaceCorners(line);
        ghost var vs, ts, ns := vertexIndices, uvIndices, normalIndices;
        for k := 0 to 3
          invariant vertexIndices == vs + [cs[0].v, cs[1].v, cs[2].v][..k]
          invariant uvIndices == ts + [cs[0].vt, cs[1].vt, cs[2].vt][..k]
          invariant normalIndices == ns + [cs[0].vn, cs[1].vn, cs[2].vn][..k]
        {
          vertexIndices := vertexIndices + [cs[k].v];
          uvIndices := uvIndices + [cs[k].vt];
          normalIndices := normalIndices + [cs[k].vn];
        }
        assert [cs[0].v, cs[1].v, cs[2].v][..3] == [cs[0].v, cs[1].v, cs[2].v];
        assert [cs[0].vt, cs[1].vt, cs[2].vt][..3] == [cs[0].vt, cs[1].vt, cs[2].vt];
        assert [cs[0].vn, cs[1].vn, cs[2].vn][..3] == [cs[0].vn, cs[1].vn, cs[2].vn];
      }
      assert Lists(tempVertices, tempUvs, tempNormals, vertexIndices, uvIndices, normalIndices)
             == ReadLine(before, line);
      ReadLinesSnoc(lines, n);
      n := n + 1;
    }
    assert lines[..n] == lines;
    t := Lists(tempVertices, tempUvs, tempNormals, vertexIndices, uvIndices, normalIndices);
  }

  /** The global buffers LoadOBJ appends to. */
  class Mesh {
    var vertices: seq<real>
    var uvs: seq<real>
    var normals: seq<real>

    constructor ()
      ensures vertices == [] && uvs == [] && normals == []
    {
      vertices, uvs, normals := [], [], [];
    }

    /**
     * Loads one OBJ file (`None` when it cannot be opened). On success the
     * resolved corners are appended to the buffers, which are never cleared.
     */
    method LoadObj(file: Option<seq<ObjLine>>) returns (ok: bool)
      requires file.Some? ==> Resolvable(ReadLines(file.value))
      modifies this
      ensures ok <==> file.Some?
      ensures !ok ==> vertices == old(vertices) && uvs == old(uvs) && normals == old(normals)
      ensures ok ==>
        var t := ReadLines(file.value);
        vertices == old(vertices) + Gather(t.vertices, t.vertexIndices, 3) &&
        uvs == old(uvs) + Gather(t.uvs, t.uvIndices, 2) &&
        normals == old(normals) + Gather(t.normals, t.normalIndices, 3)
    {
      if file.None? {
        return false;
      }
      var t := ReadAll(file.value);
      ReadLinesSizes(file.value);
      AppendCorners(t);
      return true;
    }

    /**
     * The second loop of LoadOBJ: each face corner, in order, appends the
     * position, texture coordinate and normal its indices name.
     */
    method AppendCorners(t: Lists)
      requires Resolvable(t)
      requires |t.uvIndices| == |t.vertexIndices| && |t.normalIndices| == |t.vertexIndices|
      modifies this
      ensures vertices == old(vertices) + Gather(t.vertices, t.vertexIndices, 3)
      ensures uvs == old(uvs) + Gather(t.uvs, t.uvIndices, 2)
      ensures normals == old(normals) + Gather(t.normals, t.normalIndices, 3)
    {
      var i := 0;
      while i < |t.vertexIndices|
        invariant 0 <= i <= |t.vertexIndices|
        invariant vertices == old(vertices) + GatherFirst(t.vertices, t.vertexIndices, 3, i)
        invariant uvs == old(uvs) + GatherFirst(t.uvs, t.uvIndices, 2, i)
        invariant normals == old(normals) + GatherFirst(t.normals, t.normalIndices, 3, i)
      {
        var vertexIndex, uvIndex, normalIndex := t.vertexIndices[i], t.uvIndices[i], t.normalIndices[i];
        var vBase, tBase, nBase := (vertexIndex - 1) * 3, (uvIndex - 1) * 2, (normalIndex - 1) * 3;
        TripleAt(t.vertices, vBase);
        PairAt(t.uvs, tBase);
        TripleAt(t.normals, nBase);
        vertices := vertices + [t.vertices[vBase + 0], t.vertices[vBase + 1], t.vertices[vBase + 2]];
        uvs := uvs + [t.uvs[tBase + 0], t.uvs[tBase + 1]];
        normals := normals + [t.normals[nBase + 0], t.normals[nBase + 1], t.normals[nBase + 2]];
        i := i + 1;
      }
    }
  }
}
