/** The integer and structural helpers of the tp2 scene contents: the NURBS
    control-point reshaping, the integer part of the polygon geometry, the
    mipmap levels a texture loads, the material lookups by name, the
    wireframe visibility list and the `??` / `||` defaults. Geometry
    positions, colours and everything handed to Three.js are left to the
    library; what remains is which values are read, in what order, and where
    they end up. */
module SceneContents {
  import opened Wrappers
  import opened JsonValue
  import opened JsObjects
  import opened JsSemantics

  /** Position of entry `(u, v)` in a row-major grid whose columns are
      numbered `0 .. last`. */
  function Cell(u: nat, v: nat, last: nat): nat
  {
    u * (last + 1) + v
  }

  /** A row `u <= du` and a column `v <= dv` address one of the
      `(du + 1) * (dv + 1)` cells. */
  lemma CellBelow(u: nat, v: nat, du: nat, dv: nat)
    requires u <= du && v <= dv
    ensures Cell(u, v, dv) < (du + 1) * (dv + 1)
  {
    calc {
      Cell(u, v, dv);
      u * (dv + 1) + v;
    <= { assert u * (dv + 1) <= du * (dv + 1); }
      du * (dv + 1) + dv;
    <
      du * (dv + 1) + (dv + 1);
      (du + 1) * (dv + 1);
    }
  }

  /** The rows laid end to end. */
  function Flatten<T>(rows: seq<seq<T>>): seq<T>
  {
    if rows == [] then [] else Flatten(rows[..|rows| - 1]) + rows[|rows| - 1]
  }

  /** In rows that all have `last + 1` entries, entry `(u, v)` sits at
      `Cell(u, v, last)` of the flattened sequence. */
  lemma {:induction false} FlattenAt<T>(rows: seq<seq<T>>, last: nat, u: nat, v: nat)
    requires forall k :: 0 <= k < |rows| ==> |rows[k]| == last + 1
    requires u < |rows| && v <= last
    ensures |Flatten(rows)| == |rows| * (last + 1)
    ensures Cell(u, v, last) < |Flatten(rows)|
    ensures Flatten(rows)[Cell(u, v, last)] == rows[u][v]
  {
    var n := |rows| - 1;
    var init := rows[..n];
    assert Flatten(rows) == Flatten(init) + rows[n];
    FlattenLength(init, last + 1);
    if u < n {
      FlattenAt(init, last, u, v);
    }
  }

  /** Rows of `width` entries flatten to `|rows| * width` entries. */
  lemma {:induction false} FlattenLength<T>(rows: seq<seq<T>>, width: nat)
    requires forall k :: 0 <= k < |rows| ==> |rows[k]| == width
    ensures |Flatten(rows)| == |rows| * width
  {
    if rows != [] {
      var init := rows[..|rows| - 1];
      assert forall k :: 0 <= k < |init| ==> init[k] == rows[k];
      FlattenLength(init, width);
      MulSucc(|init|, width);
    }
  }

  lemma MulSucc(a: nat, b: nat)
    ensures a * b + b == (a + 1) * b
  {
  }

  // ---------------------------------------------------------------------
  // convertControlPoints

  /** `[point.x, point.y, point.z, 1]`: a homogeneous control point. */
  datatype ControlPoint = ControlPoint(x: Option<Json>, y: Option<Json>, z: Option<Json>, w: real)

  /** The control point read from a value that is neither null nor undefined. */
  function PointOf(p: Json): ControlPoint
  {
    ControlPoint(Get(p, "x"), Get(p, "y"), Get(p, "z"), 1.0)
  }

  /** `f` applied to each element of `s`, in order. */
  function MapSeq<A, B>(f: A -> B, s: seq<A>): (r: seq<B>)
    ensures |r| == |s|
    ensures forall k :: 0 <= k < |s| ==> r[k] == f(s[k])
  {
    seq(|s|, k requires 0 <= k < |s| => f(s[k]))
  }

  /** Mapping two runs is mapping their concatenation. */
  lemma MapAppend<A, B>(f: A -> B, a: seq<A>, b: seq<A>)
    ensures MapSeq(f, a + b) == MapSeq(f, a) + MapSeq(f, b)
  {
    var lhs, rhs := MapSeq(f, a + b), MapSeq(f, a) + MapSeq(f, b);
    forall k | 0 <= k < |lhs|
      ensures lhs[k] == rhs[k]
    {
      if k < |a| {
        assert (a + b)[k] == a[k];
      } else {
        assert (a + b)[k] == b[k - |a|];
      }
    }
  }

  /** Each point of `ps` converted, in order. */
  function Points(ps: seq<Json>): seq<ControlPoint>
  {
    MapSeq(PointOf, ps)
  }

  /** The first `n` points exist and are not null, so reading `.x` from each
      of them does not throw. */
  predicate Readable(cps: seq<Json>, n: nat)
  {
    n <= |cps| && forall k :: 0 <= k < n ==> cps[k] != JNull
  }

  /** Before row `u <= du` is read, the running index plus a full row stays
      within the points the grid needs. */
  lemma RowWithin<T>(rows: seq<seq<T>>, du: nat, dv: nat)
    requires |rows| <= du
    requires forall k :: 0 <= k < |rows| ==> |rows[k]| == dv + 1
    ensures |Flatten(rows)| + dv < (du + 1) * (dv + 1)
  {
    FlattenLength(rows, dv + 1);
    CellBelow(|rows|, dv, du, dv);
  }

  /** The inner loop: one row of `dv + 1` points read from index `start`
      on. It throws at the first point that is missing or null. */
  method ConvertRow(cps: seq<Json>, start: nat, dv: nat) returns (r: Result<seq<ControlPoint>>)
    requires start <= |cps|
    ensures r.Ok? <==> start + dv + 1 <= |cps| && forall k :: start <= k < start + dv + 1 ==> cps[k] != JNull
    ensures r.Ok? ==> r.value == Points(cps[start..start + dv + 1])
  {
    var row: seq<ControlPoint> := [];
    var idx := start;
    while idx <= start + dv
      invariant start <= idx <= start + dv + 1
      invariant idx <= |cps| && forall k :: start <= k < idx ==> cps[k] != JNull
      invariant row == Points(cps[start..idx])
    {
      if idx >= |cps| || cps[idx] == JNull {
        return Err(if idx >= |cps| then "TypeError: cannot read property 'x' of undefined"
                   else "TypeError: cannot read property 'x' of null");
      }
      MapAppend(PointOf, cps[start..idx], [cps[idx]]);
      assert cps[start..idx + 1] == cps[start..idx] + [cps[idx]];
      row := row + [PointOf(cps[idx])];
      idx := idx + 1;
    }
    r := Ok(row);
  }

  /** Reshapes the flat control-point list of a NURBS surface into
      `degree_u + 1` rows of `degree_v + 1` homogeneous points, reading the
      points in order with one running index. A missing or null point makes
      the read of its `x` throw. */
  method ConvertControlPoints(cps: seq<Json>, du: nat, dv: nat)
    returns (r: Result<seq<seq<ControlPoint>>>)
    ensures r.Ok? <==> Readable(cps, (du + 1) * (dv + 1))
    ensures r.Ok? ==> |r.value| == du + 1
    ensures r.Ok? ==> forall u :: 0 <= u < |r.value| ==> |r.value[u]| == dv + 1
    ensures r.Ok? ==> Flatten(r.value) == Points(cps[..(du + 1) * (dv + 1)])
    ensures r.Ok? ==> forall u: int, v: int :: 0 <= u <= du && 0 <= v <= dv ==>
              Cell(u, v, dv) < |cps| && r.value[u][v] == PointOf(cps[Cell(u, v, dv)])
  {
    var rows: seq<seq<ControlPoint>> := [];
    var idx := 0;
    while |rows| <= du
      invariant |rows| <= du + 1
      invariant forall k :: 0 <= k < |rows| ==> |rows[k]| == dv + 1
      invariant idx == |Flatten(rows)|
      invariant Readable(cps, idx)
      invariant Flatten(rows) == Points(cps[..idx])
    {
      var row := ConvertRow(cps, idx, dv);
      if row.Err? {
        RowWithin(rows, du, dv);
        return Err(row.error);
      }
      assert (rows + [row.value])[..|rows|] == rows;
      MapAppend(PointOf, cps[..idx], cps[idx..idx + dv + 1]);
      assert cps[..idx + dv + 1] == cps[..idx] + cps[idx..idx + dv + 1];
      rows := rows + [row.value];
      idx := idx + dv + 1;
    }
    FlattenLength(rows, dv + 1);
    forall a: int, b: int | 0 <= a <= du && 0 <= b <= dv
      ensures Cell(a, b, dv) < |cps| && rows[a][b] == PointOf(cps[Cell(a, b, dv)])
    {
      FlattenAt(rows, dv, a, b);
      var c := Cell(a, b, dv);
      assert Points(cps[..idx])[c] == PointOf(cps[..idx][c]);
    }
    r := Ok(rows);
  }

  // ---------------------------------------------------------------------
  // createPolygon, integer part

  /** Vertex `(stack, slice)` of the polygon: its position is
      `(cos θ·r, sin θ·r, 0)` with `r = radius·stack/stacks` and
      `θ = 2π·slice/slices`, and its colour interpolates from the centre
      colour to the periphery colour by `stack/stacks`. */
  datatype GridVertex = GridVertex(stack: nat, slice: nat)

  /** The normal every vertex of the flat polygon gets. */
  const Up: (real, real, real) := (0.0, 0.0, 1.0)

  /** The first `j` vertices of stack `i`. */
  function VertexRow(i: nat, j: nat): (r: seq<GridVertex>)
    ensures |r| == j
    ensures forall k :: 0 <= k < j ==> r[k] == GridVertex(i, k)
  {
    seq(j, k requires 0 <= k < j => GridVertex(i, k))
  }

  /** The vertices of stacks `0 .. n - 1`, each with `slices + 1` slices. */
  function VertexGrid(n: nat, slices: nat): seq<GridVertex>
  {
    if n == 0 then [] else VertexGrid(n - 1, slices) + VertexRow(n - 1, slices + 1)
  }

  /** The grid holds `n * (slices + 1)` vertices, vertex `(i, j)` at
      `Cell(i, j, slices)`. */
  lemma {:induction false} VertexGridAt(n: nat, slices: nat, i: nat, j: nat)
    requires i < n && j <= slices
    ensures |VertexGrid(n, slices)| == n * (slices + 1)
    ensures Cell(i, j, slices) < |VertexGrid(n, slices)|
    ensures VertexGrid(n, slices)[Cell(i, j, slices)] == GridVertex(i, j)
  {
    if i == n - 1 {
      VertexGridLength(n - 1, slices);
    } else {
      VertexGridAt(n - 1, slices, i, j);
    }
  }

  lemma {:induction false} VertexGridLength(n: nat, slices: nat)
    ensures |VertexGrid(n, slices)| == n * (slices + 1)
  {
    if n > 0 {
      VertexGridLength(n - 1, slices);
      MulSucc(n - 1, slices + 1);
    }
  }

  /** The two triangles of cell `(i, j)`:
      `(current, next, current + 1)` and `(current + 1, next, next + 1)`. */
  function CellIndices(i: nat, j: nat, slices: nat): seq<nat>
  {
    var current := Cell(i, j, slices);
    var next := current + slices + 1;
    [current, next, current + 1, current + 1, next, next + 1]
  }

  /** The triangles of the first `j` cells of stack `i`. */
  function RowIndices(i: nat, j: nat, slices: nat): seq<nat>
  {
    if j == 0 then [] else RowIndices(i, j - 1, slices) + CellIndices(i, j - 1, slices)
  }

  /** The triangles of the cells of stacks `0 .. n - 1`. */
  function GridIndices(n: nat, slices: nat): seq<nat>
  {
    if n == 0 then [] else GridIndices(n - 1, slices) + RowIndices(n - 1, slices, slices)
  }

  /** Both triangles of a cell of stack `i` address vertices of stack `i`
      or `i + 1`. */
  lemma CellIndicesBelow(i: nat, j: nat, slices: nat)
    requires j < slices
    ensures forall k :: 0 <= k < 6 ==> CellIndices(i, j, slices)[k] < (i + 2) * (slices + 1)
  {
    assert (i + 2) * (slices + 1) == i * (slices + 1) + 2 * (slices + 1);
  }

  /** A stack contributes six indices per cell, all addressing vertices of
      that stack or the next one. */
  lemma {:induction false} RowIndicesShape(i: nat, j: nat, slices: nat)
    requires j <= slices
    ensures |RowIndices(i, j, slices)| == 6 * j
    ensures forall k :: 0 <= k < |RowIndices(i, j, slices)| ==>
              RowIndices(i, j, slices)[k] < (i + 2) * (slices + 1)
  {
    if j > 0 {
      RowIndicesShape(i, j - 1, slices);
      CellIndicesBelow(i, j - 1, slices);
    }
  }

  lemma MoreCells(n: nat, slices: nat)
    requires n > 0
    ensures 6 * n * slices == 6 * (n - 1) * slices + 6 * slices
    ensures n * (slices + 1) <= (n + 1) * (slices + 1)
  {
  }

  /** `n` stacks give `6 * n * slices` indices, each below the number of
      vertices of `n + 1` stacks. */
  lemma {:induction false} GridIndicesShape(n: nat, slices: nat)
    ensures |GridIndices(n, slices)| == 6 * n * slices
    ensures forall k :: 0 <= k < |GridIndices(n, slices)| ==>
              GridIndices(n, slices)[k] < (n + 1) * (slices + 1)
  {
    if n > 0 {
      var front := GridIndices(n - 1, slices);
      var back := RowIndices(n - 1, slices, slices);
      GridIndicesShape(n - 1, slices);
      RowIndicesShape(n - 1, slices, slices);
      MoreCells(n, slices);
      forall k | 0 <= k < |front + back|
        ensures (front + back)[k] < (n + 1) * (slices + 1)
      {
        if k < |front| {
          assert (front + back)[k] == front[k];
        } else {
          assert (front + back)[k] == back[k - |front|];
        }
      }
    }
  }

  /** The vertex, normal, colour and index buffers of a polygon with
      `stacks` rings of `slices` sectors: one vertex per (stack, slice) pair
      for `stack` in `0 .. stacks` and `slice` in `0 .. slices`, stack by
      stack, then two triangles per cell. */
  method PolygonBuffers(stacks: nat, slices: nat)
    returns (vertices: seq<GridVertex>, normals: seq<(real, real, real)>, colors: seq<nat>, indices: seq<nat>)
    ensures |vertices| == (stacks + 1) * (slices + 1)
    ensures forall i: int, j: int :: 0 <= i <= stacks && 0 <= j <= slices ==>
              Cell(i, j, slices) < |vertices| && vertices[Cell(i, j, slices)] == GridVertex(i, j)
    ensures |normals| == |vertices| && forall k :: 0 <= k < |normals| ==> normals[k] == Up
    ensures |colors| == |vertices| && forall k :: 0 <= k < |colors| ==> colors[k] == vertices[k].stack
    ensures indices == GridIndices(stacks, slices)
    ensures |indices| == 6 * stacks * slices
    ensures forall k :: 0 <= k < |indices| ==> indices[k] < |vertices|
  {
    vertices, normals, colors := PolygonVertices(stacks, slices);
    VertexGridLength(stacks + 1, slices);
    forall a: int, b: int | 0 <= a <= stacks && 0 <= b <= slices
      ensures Cell(a, b, slices) < |vertices| && vertices[Cell(a, b, slices)] == GridVertex(a, b)
    {
      VertexGridAt(stacks + 1, slices, a, b);
    }
    indices := PolygonIndices(stacks, slices);
    GridIndicesShape(stacks, slices);
  }

  /** The first pair of nested loops: vertices, normals and colours, one of
      each per (stack, slice) pair. */
  method PolygonVertices(stacks: nat, slices: nat)
    returns (vertices: seq<GridVertex>, normals: seq<(real, real, real)>, colors: seq<nat>)
    ensures vertices == VertexGrid(stacks + 1, slices)
    ensures |normals| == |vertices| && forall k :: 0 <= k < |normals| ==> normals[k] == Up
    ensures |colors| == |vertices| && forall k :: 0 <= k < |colors| ==> colors[k] == vertices[k].stack
  {
    vertices, normals, colors := [], [], [];
    var i := 0;
    while i <= stacks
      invariant i <= stacks + 1
      invariant vertices == VertexGrid(i, slices)
      invariant |normals| == |vertices| && forall k :: 0 <= k < |normals| ==> normals[k] == Up
      invariant |colors| == |vertices| && forall k :: 0 <= k < |colors| ==> colors[k] == vertices[k].stack
    {
      var j := 0;
      while j <= slices
        invariant j <= slices + 1
        invariant vertices == VertexGrid(i, slices) + VertexRow(i, j)
        invariant |normals| == |vertices| && forall k :: 0 <= k < |normals| ==> normals[k] == Up
        invariant |colors| == |vertices| && forall k :: 0 <= k < |colors| ==> colors[k] == vertices[k].stack
      {
        assert VertexRow(i, j + 1) == VertexRow(i, j) + [GridVertex(i, j)];
        vertices := vertices + [GridVertex(i, j)];
        normals := normals + [Up];
        colors := colors + [i];
        j := j + 1;
      }
      i := i + 1;
    }
  }

  /** The second pair of nested loops: two triangles per cell, cell by
      cell and stack by stack. */
  method PolygonIndices(stacks: nat, slices: nat) returns (indices: seq<nat>)
    ensures indices == GridIndices(stacks, slices)
  {
    indices := [];
    var i := 0;
    while i < stacks
      invariant i <= stacks
      invariant indices == GridIndices(i, slices)
    {
      indices := PushStackIndices(indices, i, slices);
      i := i + 1;
    }
  }

  /** One pass of the inner loop: the triangles of every cell of stack
      `i`, appended to `indices`. */
  method PushStackIndices(indices: seq<nat>, i: nat, slices: nat) returns (out: seq<nat>)
    ensures out == indices + RowIndices(i, slices, slices)
  {
    out := indices;
    var j := 0;
    while j < slices
      invariant j <= slices
      invariant out == indices + RowIndices(i, j, slices)
    {
      var current := Cell(i, j, slices);
      var next := current + slices + 1;
      ghost var before := out;
      out := out + [current, next, current + 1];
      out := out + [current + 1, next, next + 1];
      assert out == before + CellIndices(i, j, slices);
      j := j + 1;
    }
  }

  // ---------------------------------------------------------------------
  // Mipmap levels of a texture

  /** The key `mipmap${i}` of a texture descriptor. */
  function MipmapKey(i: nat): string
    requires i <= 7
  {
    "mipmap" + [('0' as int + i) as char]
  }

  /** Some level among `loads` is level `i`. */
  predicate LoadsLevel(loads: seq<(nat, Json)>, i: nat)
  {
    exists k :: 0 <= k < |loads| && loads[k].0 == i
  }

  /** The eight `mipmap${i}` entries of a texture descriptor, level by
      level. */
  function MipmapSlots(tex: Json): (slots: seq<Option<Json>>)
    ensures |slots| == 8
    ensures forall i :: 0 <= i < 8 ==> slots[i] == Get(tex, MipmapKey(i))
  {
    seq(8, i requires 0 <= i < 8 => Get(tex, MipmapKey(i)))
  }

  /** The levels below `n` whose slot is truthy, in increasing order, each
      with its image path. */
  function TruthyLevels(slots: seq<Option<Json>>, n: nat): seq<(nat, Json)>
    requires n <= |slots|
  {
    if n == 0 then []
    else TruthyLevels(slots, n - 1) + (if Truthy(slots[n - 1]) then [(n - 1, slots[n - 1].value)] else [])
  }

  /** The mipmap images a texture loads: none unless `mipmap0` is truthy. */
  function Mipmaps(tex: Json): seq<(nat, Json)>
  {
    var slots := MipmapSlots(tex);
    if Truthy(slots[0]) then TruthyLevels(slots, 8) else []
  }

  /** `TruthyLevels(slots, n)` holds levels below `n`, strictly increasing,
      each with a truthy slot and that slot's value. */
  lemma {:induction false} TruthyLevelsSorted(slots: seq<Option<Json>>, n: nat)
    requires n <= |slots|
    ensures forall k :: 0 <= k < |TruthyLevels(slots, n)| ==>
              TruthyLevels(slots, n)[k].0 < n &&
              slots[TruthyLevels(slots, n)[k].0] == Some(TruthyLevels(slots, n)[k].1) &&
              Truthy(slots[TruthyLevels(slots, n)[k].0])
    ensures forall k, l :: 0 <= k < l < |TruthyLevels(slots, n)| ==>
              TruthyLevels(slots, n)[k].0 < TruthyLevels(slots, n)[l].0
  {
    if n > 0 {
      TruthyLevelsSorted(slots, n - 1);
    }
  }

  /** Every level below `n` whose slot is truthy is in
      `TruthyLevels(slots, n)`, and no other. */
  lemma {:induction false} TruthyLevelsComplete(slots: seq<Option<Json>>, n: nat)
    requires n <= |slots|
    ensures forall m :: 0 <= m < n ==> (LoadsLevel(TruthyLevels(slots, n), m) <==> Truthy(slots[m]))
  {
    if n > 0 {
      TruthyLevelsComplete(slots, n - 1);
      TruthyLevelsSorted(slots, n - 1);
      var front := TruthyLevels(slots, n - 1);
      var all := TruthyLevels(slots, n);
      forall m | 0 <= m < n
        ensures LoadsLevel(all, m) <==> Truthy(slots[m])
      {
        if LoadsLevel(all, m) {
          var k :| 0 <= k < |all| && all[k].0 == m;
          if k < |front| {
            assert front[k] == all[k];
            assert LoadsLevel(front, m);
          }
        }
        if Truthy(slots[m]) {
          if m < n - 1 {
            var k :| 0 <= k < |front| && front[k].0 == m;
            assert all[k] == front[k];
          } else {
            assert all[|front|].0 == m;
          }
        }
      }
    }
  }

  /** Mipmaps load only when `mipmap0` is truthy, and then exactly the levels
      0 to 7 whose `mipmap${level}` entry is truthy, in increasing order, each
      from its own path. */
  lemma MipmapsExact(tex: Json)
    ensures forall k :: 0 <= k < |Mipmaps(tex)| ==>
              Mipmaps(tex)[k].0 <= 7 && Get(tex, MipmapKey(Mipmaps(tex)[k].0)) == Some(Mipmaps(tex)[k].1)
    ensures forall k, l :: 0 <= k < l < |Mipmaps(tex)| ==> Mipmaps(tex)[k].0 < Mipmaps(tex)[l].0
    ensures forall i :: 0 <= i <= 7 ==>
              (LoadsLevel(Mipmaps(tex), i) <==> Truthy(Get(tex, MipmapKey(0))) && Truthy(Get(tex, MipmapKey(i))))
  {
    var slots := MipmapSlots(tex);
    if Truthy(slots[0]) {
      TruthyLevelsSorted(slots, 8);
      TruthyLevelsComplete(slots, 8);
    } else {
      assert Mipmaps(tex) == [];
    }
  }

  /** The mipmap loop of a (truthy) image texture descriptor: when `mipmap0`
      is truthy, load level `i` from `mipmap${i}` for each `i` in `0 .. 7`
      whose entry is truthy; otherwise set the texture's filters to nearest
      magnification and trilinear minification instead (`nearest`). */
  method MipmapLoads(tex: Json) returns (loads: seq<(nat, Json)>, nearest: bool)
    requires Truthy(Some(tex))
    ensures nearest <==> !Truthy(Get(tex, MipmapKey(0)))
    ensures loads == Mipmaps(tex)
  {
    ghost var slots := MipmapSlots(tex);
    loads := [];
    if Truthy(Get(tex, MipmapKey(0))) {
      nearest := false;
      var i := 0;
      while i <= 7
        invariant i <= 8
        invariant loads == TruthyLevels(slots, i)
      {
        var level := Get(tex, MipmapKey(i));
        if Truthy(level) {
          loads := loads + [(i, level.value)];
        }
        i := i + 1;
      }
    } else {
      nearest := true;
    }
  }

  // ---------------------------------------------------------------------
  // Material lookups by name

  /** The descriptor of the material named `target` in the scene's
      `materials` object: `Object.entries` throws on null or undefined
      materials, `object === name` only holds for a string, and the first
      entry with that name is the one found. `None` stands for no match. */
  function MaterialNamed(materials: Option<Json>, target: Option<Json>): (r: Result<Option<Json>>)
    ensures r.Err? <==> IsNullish(materials)
    ensures r.Ok? && r.value.Some? ==>
              target.Some? && target.value.JStr? && target.value.str in KeysOf(Entries(materials).value)
  {
    match Entries(materials)
    case Err(e) => Err(e)
    case Ok(es) =>
      match target
      case Some(JStr(name)) => Ok(Lookup(es, name))
      case _ => Ok(None)
  }

  /** The material found under a name is the descriptor `JSON.parse`
      keeps for it: that of the last member of `materials` written with
      that name. */
  lemma MaterialNamedEntry(materials: Json, i: nat)
    requires materials.JObject? && i < |materials.entries|
    requires forall m :: i < m < |materials.entries| ==> materials.entries[m].0 != materials.entries[i].0
    ensures MaterialNamed(Some(materials), Some(JStr(materials.entries[i].0)))
            == Ok(Some(materials.entries[i].1))
  {
    var name := materials.entries[i].0;
    OwnEntriesLookup(materials.entries, name);
    LastValueAt(materials.entries, i);
    var es := OwnEntries(materials.entries);
    assert Entries(Some(materials)) == Ok(es);
    assert Lookup(es, name) == Some(materials.entries[i].1);
  }

  /** The loop both lookups share: walk `Object.entries(materials)` and stop
      at the first entry whose name is `target`. */
  method FindMaterial(materials: Option<Json>, target: Option<Json>) returns (r: Result<Option<Json>>)
    ensures r == MaterialNamed(materials, target)
  {
    var entries := Entries(materials);
    if entries.Err? {
      return Err(entries.error);
    }
    var es := entries.value;
    var i := 0;
    while i < |es|
      invariant i <= |es|
      invariant MaterialNamed(materials, target) ==
                (if target.Some? && target.value.JStr? then Ok(Lookup(es[i..], target.value.str)) else Ok(None))
    {
      assert es[i..][1..] == es[i + 1..];
      if target == Some(JStr(es[i].0)) {
        return Ok(Some(es[i].1));
      }
      i := i + 1;
    }
    return Ok(None);
  }

  /** `{s: values.texlength_s, t: values.texlength_t}`. */
  datatype TexLengths = TexLengths(s: Option<Json>, t: Option<Json>)

  /** `getmaterialLenSLenT(object)`: the texture lengths of the named
      material, `undefined` (`None`) when no material has that name; reading
      them from a null descriptor throws. */
  method MaterialLenSLenT(materials: Option<Json>, target: Option<Json>) returns (r: Result<Option<TexLengths>>)
    ensures r.Err? <==> MaterialNamed(materials, target).Err? || MaterialNamed(materials, target) == Ok(Some(JNull))
    ensures r.Ok? ==> (r.value.None? <==> MaterialNamed(materials, target).value.None?)
    ensures r.Ok? && r.value.Some? ==>
              var values := MaterialNamed(materials, target).value.value;
              r.value.value == TexLengths(Get(values, "texlength_s"), Get(values, "texlength_t"))
  {
    var found := FindMaterial(materials, target);
    if found.Err? {
      return Err(found.error);
    }
    match found.value
    case None => r := Ok(None);
    case Some(values) =>
      if values == JNull {
        r := Err("TypeError: cannot read property 'texlength_s' of null");
      } else {
        r := Ok(Some(TexLengths(Get(values, "texlength_s"), Get(values, "texlength_t"))));
      }
  }

  /** `getMaterialWireframe(object)`: the `wireframe` field of the named
      material; `undefined` (`None`) both when no material has that name and
      when the material has no such field. */
  method MaterialWireframe(materials: Option<Json>, target: Option<Json>) returns (r: Result<Option<Json>>)
    ensures r.Err? <==> MaterialNamed(materials, target).Err? || MaterialNamed(materials, target) == Ok(Some(JNull))
    ensures r.Ok? && MaterialNamed(materials, target).value.None? ==> r.value.None?
    ensures r.Ok? && MaterialNamed(materials, target).value.Some? ==>
              r.value == Get(MaterialNamed(materials, target).value.value, "wireframe")
  {
    var found := FindMaterial(materials, target);
    if found.Err? {
      return Err(found.error);
    }
    match found.value
    case None => r := Ok(None);
    case Some(values) =>
      if values == JNull {
        r := Err("TypeError: cannot read property 'wireframe' of null");
      } else {
        r := Ok(Get(values, "wireframe"));
      }
  }

  // ---------------------------------------------------------------------
  // Wireframe visibility

  /** `vs` with entry `index` set to `visible` when that entry exists, and
      unchanged otherwise (an index out of range reads `undefined`). */
  function Toggled(vs: seq<bool>, index: int, visible: bool): (r: seq<bool>)
    ensures |r| == |vs|
    ensures 0 <= index < |vs| ==> r[index] == visible
    ensures forall k :: 0 <= k < |vs| && k != index ==> r[k] == vs[k]
  {
    if 0 <= index < |vs| then vs[index := visible] else vs
  }

  /** Toggling the same entry twice to the same value is toggling it once. */
  lemma ToggledIdempotent(vs: seq<bool>, index: int, visible: bool)
    ensures Toggled(Toggled(vs, index, visible), index, visible) == Toggled(vs, index, visible)
  {
  }

  /** The scene's wireframe overlays, in the order they were created, kept
      as their visibility flags. */
  class Wireframes {
    var visible: seq<bool>

    /** `this.wireframes = []`. */
    constructor ()
      ensures visible == []
    {
      visible := [];
    }

    /** A new overlay is appended, visible exactly when its material's
        `wireframe` setting is truthy. */
    method Register(setting: Option<Json>)
      modifies this
      ensures visible == old(visible) + [Truthy(setting)]
    {
      visible := visible + [Truthy(setting)];
    }

    /** `toggleWireframe(index, visible)`: sets the visibility of overlay
        `index` when it exists and leaves every other overlay as it was. */
    method Toggle(index: int, v: bool)
      modifies this
      ensures visible == Toggled(old(visible), index, v)
    {
      if 0 <= index < |visible| {
        visible := visible[index := v];
      }
    }
  }

  // ---------------------------------------------------------------------
  // Defaults written with `??` and `||`

  /** `object.thetastart ?? 0`, in degrees. */
  function ThetaStart(primitive: Json): Json
  {
    Nullish(Get(primitive, "thetastart"), JNum(0.0))
  }

  /** `object.thetalength ?? 360`, in degrees. */
  function ThetaLength(primitive: Json): Json
  {
    Nullish(Get(primitive, "thetalength"), JNum(360.0))
  }

  /** `values.bumpscale ?? 1.0`. */
  function BumpScale(values: Json): Json
  {
    Nullish(Get(values, "bumpscale"), JNum(1.0))
  }

  /** `texture.repeat.set(values.texlength_s || 1, values.texlength_t || 1)`. */
  function TextureRepeat(values: Json): (Json, Json)
  {
    (OrDefault(Get(values, "texlength_s"), JNum(1.0)), OrDefault(Get(values, "texlength_t"), JNum(1.0)))
  }

  /** `v ?? d` and `v || d` agree except on a falsy value that is neither
      null nor undefined (`false`, `0`, `""`), which `??` keeps and `||`
      replaces. */
  lemma NullishVersusOr(v: Option<Json>, d: Json)
    ensures Nullish(v, d) != OrDefault(v, d) <==> !IsNullish(v) && !Truthy(v) && v.value != d
    ensures !IsNullish(v) && !Truthy(v) ==> Nullish(v, d) == v.value && OrDefault(v, d) == d
  {
  }

  /** An explicit 0 survives in the theta range and the bump scale, but a
      texture length of 0 becomes 1; absent values take the defaults. */
  lemma ExplicitZeroDefaults(values: Json)
    requires values.JObject?
    ensures Get(values, "thetastart") == Some(JNum(0.0)) ==> ThetaStart(values) == JNum(0.0)
    ensures Get(values, "thetalength") == Some(JNum(0.0)) ==> ThetaLength(values) == JNum(0.0)
    ensures Get(values, "bumpscale") == Some(JNum(0.0)) ==> BumpScale(values) == JNum(0.0)
    ensures Get(values, "texlength_s") == Some(JNum(0.0)) ==> TextureRepeat(values).0 == JNum(1.0)
    ensures Get(values, "texlength_t") == Some(JNum(0.0)) ==> TextureRepeat(values).1 == JNum(1.0)
    ensures Get(values, "thetastart").None? ==> ThetaStart(values) == JNum(0.0)
    ensures Get(values, "thetalength").None? ==> ThetaLength(values) == JNum(360.0)
    ensures Get(values, "bumpscale").None? ==> BumpScale(values) == JNum(1.0)
  {
  }
}
