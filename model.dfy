/** Model loading with vertex deduplication (src/model.rs).

    Reading and parsing the OBJ file is outside the model: the parsed meshes arrive as the
    `parsed` argument, or the error the reader or parser reported. A vertex is compared as
    a value (its components are exact reals here).
 */
module ModelLoading {
  import opened Vk

  datatype Vec2 = Vec2(x: real, y: real)
  datatype Vec3 = Vec3(x: real, y: real, z: real)

  datatype Vertex = Vertex(pos: Vec3, color: Vec3, texCoord: Vec2)

  /** A triangulated, single-index mesh as the OBJ parser returns it: three position
      components and two texture coordinates per vertex, and the vertex of each corner. */
  datatype Mesh = Mesh(positions: seq<real>, texcoords: seq<real>, indices: seq<nat>)

  datatype Model = Model(mesh: Mesh)

  datatype LoadError = LoadError(message: string)

  /** Every index of the mesh addresses a full position and texture coordinate; the source
      indexes the arrays directly and panics otherwise. */
  predicate WellIndexed(mesh: Mesh) {
    forall k :: 0 <= k < |mesh.indices| ==>
      3 * mesh.indices[k] + 2 < |mesh.positions| && 2 * mesh.indices[k] + 1 < |mesh.texcoords|
  }

  predicate AllWellIndexed(models: seq<Model>) {
    forall m :: m in models ==> WellIndexed(m.mesh)
  }

  /** The vertex built for one mesh index: position at offset 3*index, white colour, and
      the texture coordinate at offset 2*index with its v axis flipped. */
  function MeshVertex(mesh: Mesh, index: nat): Vertex
    requires 3 * index + 2 < |mesh.positions| && 2 * index + 1 < |mesh.texcoords|
  {
    Vertex(
      Vec3(mesh.positions[3 * index], mesh.positions[3 * index + 1], mesh.positions[3 * index + 2]),
      Vec3(1.0, 1.0, 1.0),
      Vec2(mesh.texcoords[2 * index], 1.0 - mesh.texcoords[2 * index + 1]))
  }

  /** The vertices built for a mesh, one per index, in index order. */
  function MeshVertices(mesh: Mesh): seq<Vertex>
    requires WellIndexed(mesh)
  {
    seq(|mesh.indices|, k requires 0 <= k < |mesh.indices| => MeshVertex(mesh, mesh.indices[k]))
  }

  /** The stream of vertices the nested loop builds, model after model. */
  function Constructed(models: seq<Model>): seq<Vertex>
    requires AllWellIndexed(models)
  {
    if models == [] then []
    else Constructed(models[..|models| - 1]) + MeshVertices(models[|models| - 1].mesh)
  }

  /** The sum of the index counts of all meshes. */
  function IndexCount(models: seq<Model>): nat {
    if models == [] then 0
    else IndexCount(models[..|models| - 1]) + |models[|models| - 1].mesh.indices|
  }

  /** One vertex is built per mesh index, so the loop visits as many vertices as all
      meshes have indices. */
  lemma {:induction false} ConstructedLength(models: seq<Model>)
    requires AllWellIndexed(models)
    ensures |Constructed(models)| == IndexCount(models)
  {
    if models != [] {
      ConstructedLength(models[..|models| - 1]);
    }
  }

  predicate Distinct(vs: seq<Vertex>) {
    forall i, j :: 0 <= i < j < |vs| ==> vs[i] != vs[j]
  }

  /** The vertices of `vs` in order of first occurrence, each once. */
  function Dedup(vs: seq<Vertex>): seq<Vertex> {
    if vs == [] then []
    else
      var u := Dedup(vs[..|vs| - 1]);
      if vs[|vs| - 1] in u then u else u + [vs[|vs| - 1]]
  }

  /** Deduplication keeps every vertex, invents none, stores each once and never grows
      the buffer beyond the stream. */
  lemma {:induction false} DedupProperties(vs: seq<Vertex>)
    ensures Distinct(Dedup(vs))
    ensures forall v :: v in Dedup(vs) <==> v in vs
    ensures |Dedup(vs)| <= |vs|
  {
    if vs != [] {
      var init := vs[..|vs| - 1];
      DedupProperties(init);
      assert vs == init + [vs[|vs| - 1]];
    }
  }

  /** The vertex and index vectors of `AppData` that `load_model` appends to. */
  class AppData {
    var vertices: seq<Vertex>
    var indices: seq<nat>

    /** `AppData::default()`. */
    constructor ()
      ensures vertices == [] && indices == []
    {
      vertices := [];
      indices := [];
    }

    /** `load_model`: every constructed vertex is looked up in a map of the vertices stored
        during this call; a known vertex appends its stored position to `indices`, a new
        one is appended to `vertices` and its position recorded. A read or parse error
        leaves both vectors untouched. */
    method LoadModel(parsed: Result<seq<Model>, LoadError>) returns (r: Result<(), LoadError>)
      requires parsed.Ok? ==> AllWellIndexed(parsed.value)
      modifies this
      ensures parsed.Err? ==>
        r == Err(parsed.error) && vertices == old(vertices) && indices == old(indices)
      ensures parsed.Ok? ==> r.Ok?
      ensures parsed.Ok? ==> vertices == old(vertices) + Dedup(Constructed(parsed.value))
      ensures parsed.Ok? ==> |indices| == |old(indices)| + |Constructed(parsed.value)|
      ensures parsed.Ok? ==> |indices| == |old(indices)| + IndexCount(parsed.value)
      ensures parsed.Ok? ==> indices[..|old(indices)|] == old(indices)
      ensures parsed.Ok? ==> forall k :: 0 <= k < |Constructed(parsed.value)| ==>
        |old(vertices)| <= indices[|old(indices)| + k] < |vertices|
        && vertices[indices[|old(indices)| + k]] == Constructed(parsed.value)[k]
    {
      if parsed.Err? {
        return Err(parsed.error);
      }
      var models := parsed.value;
      ghost var baseV := vertices;
      ghost var baseI := indices;
      ghost var added: seq<nat> := [];
      var unique: map<Vertex, nat> := map[];
      for m := 0 to |models|
        invariant AllWellIndexed(models[..m])
        invariant indices == baseI + added
        invariant Loaded(baseV, Constructed(models[..m]), vertices, added, unique)
      {
        ConstructedSnoc(models, m);
        unique, added := AppendMesh(models[m].mesh, unique, baseV, baseI, Constructed(models[..m]), added);
      }
      assert models[..|models|] == models;
      ConstructedLength(models);
      LoadedIndices(baseV, baseI, Constructed(models), vertices, indices, added, unique);
      return Ok(());
    }

    /** The inner loop of `load_model`, over the indices of one mesh. */
    method AppendMesh(mesh: Mesh, unique: map<Vertex, nat>, ghost baseV: seq<Vertex>,
                      ghost baseI: seq<nat>, ghost seen: seq<Vertex>, ghost added: seq<nat>)
      returns (unique': map<Vertex, nat>, ghost added': seq<nat>)
      requires WellIndexed(mesh)
      requires indices == baseI + added
      requires Loaded(baseV, seen, vertices, added, unique)
      modifies this
      ensures indices == baseI + added'
      ensures Loaded(baseV, seen + MeshVertices(mesh), vertices, added', unique')
    {
      unique', added' := unique, added;
      assert seen + MeshVertices(mesh)[..0] == seen;
      for i := 0 to |mesh.indices|
        invariant indices == baseI + added'
        invariant Loaded(baseV, seen + MeshVertices(mesh)[..i], vertices, added', unique')
      {
        ghost var prefix := seen + MeshVertices(mesh)[..i];
        var index := mesh.indices[i];
        var vertex := MeshVertex(mesh, index);
        if vertex in unique' {
          LoadKnown(baseV, prefix, vertex, vertices, added', unique');
          indices := indices + [unique'[vertex]];
          added' := added' + [unique'[vertex]];
        } else {
          LoadNew(baseV, prefix, vertex, vertices, added', unique');
          var position := |vertices|;
          unique' := unique'[vertex := position];
          vertices := vertices + [vertex];
          indices := indices + [position];
          added' := added' + [position];
        }
        StreamSnoc(seen, mesh, i);
      }
      assert MeshVertices(mesh)[..|mesh.indices|] == MeshVertices(mesh);
    }
  }

  /** The stream after one more model. */
  lemma ConstructedSnoc(models: seq<Model>, m: nat)
    requires AllWellIndexed(models) && m < |models|
    ensures WellIndexed(models[m].mesh) && AllWellIndexed(models[..m + 1])
    ensures Constructed(models[..m + 1]) == Constructed(models[..m]) + MeshVertices(models[m].mesh)
  {
    assert models[m] in models;
    assert models[..m + 1][..m] == models[..m];
  }

  /** The stream after one more index of the current mesh. */
  lemma StreamSnoc(seen: seq<Vertex>, mesh: Mesh, i: nat)
    requires WellIndexed(mesh) && i < |mesh.indices|
    ensures seen + MeshVertices(mesh)[..i + 1]
            == (seen + MeshVertices(mesh)[..i]) + [MeshVertex(mesh, mesh.indices[i])]
  {
    assert MeshVertices(mesh)[..i + 1] == MeshVertices(mesh)[..i] + [MeshVertex(mesh, mesh.indices[i])];
  }

  /** The state of `load_model` after the stream `seen`: its vertices appended to `baseV`
      once each in first-occurrence order, one appended index per streamed vertex that
      addresses an appended copy of that vertex, and the lookup map holding exactly the
      appended vertices at their positions. */
  ghost predicate Loaded(baseV: seq<Vertex>, seen: seq<Vertex>, vertices: seq<Vertex>,
                         added: seq<nat>, unique: map<Vertex, nat>)
  {
    && vertices == baseV + Dedup(seen)
    && |added| == |seen|
    && (forall k :: 0 <= k < |seen| ==>
          |baseV| <= added[k] < |vertices| && vertices[added[k]] == seen[k])
    && (forall v :: v in unique <==> v in Dedup(seen))
    && forall v :: v in unique ==> |baseV| <= unique[v] < |vertices| && vertices[unique[v]] == v
  }

  /** The appended indices, read back through `indices`. */
  lemma LoadedIndices(baseV: seq<Vertex>, baseI: seq<nat>, seen: seq<Vertex>, vertices: seq<Vertex>,
                      indices: seq<nat>, added: seq<nat>, unique: map<Vertex, nat>)
    requires indices == baseI + added
    requires Loaded(baseV, seen, vertices, added, unique)
    ensures |indices| == |baseI| + |seen|
    ensures indices[..|baseI|] == baseI
    ensures forall k :: 0 <= k < |seen| ==>
      |baseV| <= indices[|baseI| + k] < |vertices| && vertices[indices[|baseI| + k]] == seen[k]
  {
    assert forall k :: 0 <= k < |seen| ==> indices[|baseI| + k] == added[k];
  }

  /** A vertex already stored reuses its stored position. */
  lemma LoadKnown(baseV: seq<Vertex>, seen: seq<Vertex>, vertex: Vertex,
                  vertices: seq<Vertex>, added: seq<nat>, unique: map<Vertex, nat>)
    requires Loaded(baseV, seen, vertices, added, unique)
    requires vertex in unique
    ensures Loaded(baseV, seen + [vertex], vertices, added + [unique[vertex]], unique)
  {
    assert (seen + [vertex])[..|seen|] == seen;
  }

  /** A vertex not yet stored is appended, and its position is recorded. */
  lemma LoadNew(baseV: seq<Vertex>, seen: seq<Vertex>, vertex: Vertex,
                vertices: seq<Vertex>, added: seq<nat>, unique: map<Vertex, nat>)
    requires Loaded(baseV, seen, vertices, added, unique)
    requires vertex !in unique
    ensures Loaded(baseV, seen + [vertex], vertices + [vertex], added + [|vertices|],
                   unique[vertex := |vertices|])
  {
    var seen', vertices', added' := seen + [vertex], vertices + [vertex], added + [|vertices|];
    var unique' := unique[vertex := |vertices|];
    assert seen'[..|seen|] == seen;
    assert Dedup(seen') == Dedup(seen) + [vertex];
    assert vertices' == baseV + Dedup(seen');
    forall k | 0 <= k < |seen'|
      ensures |baseV| <= added'[k] < |vertices'| && vertices'[added'[k]] == seen'[k]
    {
      if k < |seen| {
        assert added'[k] == added[k] && seen'[k] == seen[k];
      }
    }
    forall v | v in unique'
      ensures |baseV| <= unique'[v] < |vertices'| && vertices'[unique'[v]] == v
    {
    }
  }
}
