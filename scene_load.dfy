/**
 * `loadscene`: turning the importer's meshes and materials into drawable
 * models. Each mesh gets an interleaved vertex buffer, a flat 16-bit index
 * buffer and three optional texture handles resolved against the scene's
 * texture map. The loader's per-mesh checks (a face that is not a
 * triangle, a material index out of range, a slot naming an absent texture)
 * are failure results here.
 *
 * GL objects (vertex arrays, buffers) are not modelled: a model keeps the
 * contents of its vertex and index buffers instead. Texture handles are
 * opaque naturals, 0 meaning "no texture".
 */
module SceneLoad {
  import opened Results

  /** Index values are stored as `GLushort`: 16 bits, so they wrap modulo this. */
  const IndexRange: nat := 65536

  datatype Vec3 = Vec3(x: real, y: real, z: real)
  datatype Vec2 = Vec2(u: real, v: real)

  /**
   * The parts of one imported mesh the loader reads. `texCoords` is the first
   * texture-coordinate channel when the mesh has one; `faces` holds each
   * face's vertex indices.
   */
  datatype Mesh = Mesh(
    vertices: seq<Vec3>,
    texCoords: Option<seq<Vec3>>,
    normals: seq<Vec3>,
    tangents: seq<Vec3>,
    bitangents: seq<Vec3>,
    faces: seq<seq<nat>>,
    materialIndex: nat)

  /**
   * Every per-vertex channel the loader reads without a check (normals,
   * tangents, bitangents) has one entry per vertex, and so do the texture
   * coordinates when present. The loader dereferences these arrays unguarded,
   * so a mesh the importer leaves without them (no tangent space for a mesh
   * with no texture coordinates, no normals for line or point meshes) is
   * outside this model.
   */
  predicate Complete(m: Mesh)
  {
    && |m.normals| == |m.vertices|
    && |m.tangents| == |m.vertices|
    && |m.bitangents| == |m.vertices|
    && (m.texCoords.Some? ==> |m.texCoords.value| == |m.vertices|)
  }

  /** The first texture name of each slot of a material, when the slot has one. */
  datatype Material = Material(diffuse: Option<string>, normal: Option<string>, specular: Option<string>)

  // ---------------------------------------------------------------------
  // Vertex layout.
  // ---------------------------------------------------------------------

  /** One packed vertex (`attribs`). */
  datatype Attribs = Attribs(pos: Vec3, uv: Vec2, norm: Vec3, tng: Vec3, bitng: Vec3)

  /** `sz_pos_attrib`, `sz_uv_attrib`, `sz_norm_attrib`, `sz_tng_attrib`, `sz_bitng_attrib`. */
  const AttribSizes: seq<nat> := [3, 2, 3, 3, 3]

  function Sum(s: seq<nat>): nat
  {
    if s == [] then 0 else s[0] + Sum(s[1..])
  }

  /** `sz_total_attrib`: floats per vertex. */
  function SzTotalAttrib(): nat
  {
    Sum(AttribSizes)
  }

  /** Offset, in floats, of vertex attribute `k` (the pointer set up for location `k`). */
  function AttribOffset(k: nat): nat
    requires k < |AttribSizes|
  {
    Sum(AttribSizes[..k])
  }

  /** The packed floats of one vertex, attribute after attribute. */
  function AttribFields(a: Attribs): seq<real>
  {
    [a.pos.x, a.pos.y, a.pos.z, a.uv.u, a.uv.v, a.norm.x, a.norm.y, a.norm.z,
     a.tng.x, a.tng.y, a.tng.z, a.bitng.x, a.bitng.y, a.bitng.z]
  }

  /**
   * The stride is 14 floats and each attribute pointer lands on its own
   * components: position at 0, texture coordinates at 3, normal at 5,
   * tangent at 8, bitangent at 11.
   */
  lemma VertexLayout(a: Attribs)
    ensures SzTotalAttrib() == 14 && |AttribFields(a)| == SzTotalAttrib()
    ensures [AttribOffset(0), AttribOffset(1), AttribOffset(2), AttribOffset(3), AttribOffset(4)] == [0, 3, 5, 8, 11]
    ensures var f := AttribFields(a);
      && f[AttribOffset(0) .. AttribOffset(0) + AttribSizes[0]] == [a.pos.x, a.pos.y, a.pos.z]
      && f[AttribOffset(1) .. AttribOffset(1) + AttribSizes[1]] == [a.uv.u, a.uv.v]
      && f[AttribOffset(2) .. AttribOffset(2) + AttribSizes[2]] == [a.norm.x, a.norm.y, a.norm.z]
      && f[AttribOffset(3) .. AttribOffset(3) + AttribSizes[3]] == [a.tng.x, a.tng.y, a.tng.z]
      && f[AttribOffset(4) .. AttribOffset(4) + AttribSizes[4]] == [a.bitng.x, a.bitng.y, a.bitng.z]
  {
    assert AttribSizes[..0] == [];
    assert AttribSizes[..1] == [3];
    assert AttribSizes[..2] == [3, 2];
    assert AttribSizes[..3] == [3, 2, 3];
    assert AttribSizes[..4] == [3, 2, 3, 3];
    assert Sum([3]) == 3;
    assert Sum([2]) == 2 && Sum([3, 2]) == 5;
    assert Sum([3, 3]) == 6 && Sum([2, 3]) == 5 && Sum([3, 2, 3]) == 8;
    assert Sum([3, 3, 3]) == 9 && Sum([2, 3, 3]) == 8 && Sum([3, 2, 3, 3]) == 11;
    assert Sum([3, 3, 3, 3]) == 12 && Sum([2, 3, 3, 3]) == 11 && Sum(AttribSizes) == 14;
  }

  /** Texture coordinates of vertex `j`, or (0, 0) when the mesh has none. */
  function UV(m: Mesh, j: nat): Vec2
    requires Complete(m) && j < |m.vertices|
  {
    if m.texCoords.Some? then Vec2(m.texCoords.value[j].x, m.texCoords.value[j].y) else Vec2(0.0, 0.0)
  }

  /** The vertex buffer of a mesh, built one vertex at a time. */
  method BuildVertices(m: Mesh) returns (verts: seq<Attribs>)
    requires Complete(m)
    ensures |verts| == |m.vertices|
    ensures forall j :: 0 <= j < |verts| ==>
      && verts[j].pos == m.vertices[j]
      && verts[j].norm == m.normals[j]
      && verts[j].tng == m.tangents[j]
      && verts[j].bitng == m.bitangents[j]
      && (m.texCoords.None? ==> verts[j].uv == Vec2(0.0, 0.0))
      && (m.texCoords.Some? ==> verts[j].uv == Vec2(m.texCoords.value[j].x, m.texCoords.value[j].y))
  {
    var a := new Attribs[|m.vertices|];
    var j := 0;
    while j < |m.vertices|
      invariant 0 <= j <= |m.vertices|
      invariant forall i :: 0 <= i < j ==>
        a[i] == Attribs(m.vertices[i], UV(m, i), m.normals[i], m.tangents[i], m.bitangents[i])
    {
      var uv := if m.texCoords.Some? then Vec2(m.texCoords.value[j].x, m.texCoords.value[j].y)
                else Vec2(0.0, 0.0);
      a[j] := Attribs(m.vertices[j], uv, m.normals[j], m.tangents[j], m.bitangents[j]);
      j := j + 1;
    }
    verts := a[..];
  }

  /** The vertex buffer a loaded model holds. */
  function Vertices(m: Mesh): seq<Attribs>
    requires Complete(m)
  {
    seq(|m.vertices|, j requires 0 <= j < |m.vertices| =>
      Attribs(m.vertices[j], UV(m, j), m.normals[j], m.tangents[j], m.bitangents[j]))
  }

  // ---------------------------------------------------------------------
  // Index flattening.
  // ---------------------------------------------------------------------

  predicate AllTriangles(faces: seq<seq<nat>>)
  {
    forall j :: 0 <= j < |faces| ==> |faces[j]| == 3
  }

  /** The first face that is not a triangle. */
  function FirstNonTriangle(faces: seq<seq<nat>>): (r: nat)
    requires !AllTriangles(faces)
    ensures r < |faces| && |faces[r]| != 3
    ensures forall j :: 0 <= j < r ==> |faces[j]| == 3
  {
    if |faces[0]| != 3 then 0 else 1 + FirstNonTriangle(faces[1..])
  }

  /** The index buffer of an all-triangle mesh: three 16-bit indices per face. */
  function Indices(faces: seq<seq<nat>>): seq<nat>
    requires AllTriangles(faces)
  {
    seq(3 * |faces|, i requires 0 <= i < 3 * |faces| => faces[i / 3][i % 3] % IndexRange)
  }

  /** Index `3 * j + k` is corner `k` of face `j`, truncated to 16 bits. */
  lemma IndicesAt(faces: seq<seq<nat>>, j: nat, k: nat)
    requires AllTriangles(faces) && j < |faces| && k < 3
    ensures |Indices(faces)| == 3 * |faces|
    ensures 3 * j + k < |Indices(faces)|
    ensures Indices(faces)[3 * j + k] == faces[j][k] % IndexRange
    ensures faces[j][k] < IndexRange ==> Indices(faces)[3 * j + k] == faces[j][k]
  {
    DivMod3(j, k);
  }

  lemma DivMod3(j: nat, k: nat)
    requires k < 3
    ensures (3 * j + k) / 3 == j && (3 * j + k) % 3 == k
  {
  }

  /**
   * The index loop: `nindices` is three times the face count, each face is
   * checked to be a triangle before its indices are stored, and the first
   * face that is not one stops the load.
   */
  method FlattenIndices(faces: seq<seq<nat>>) returns (r: Result<seq<nat>, nat>)
    ensures r.Ok? <==> AllTriangles(faces)
    ensures r.Ok? ==> r.value == Indices(faces)
    ensures r.Err? ==> r.error == FirstNonTriangle(faces)
  {
    var nindices := 3 * |faces|;
    var pindices := new nat[nindices];
    var j := 0;
    while j < |faces|
      invariant 0 <= j <= |faces|
      invariant forall i :: 0 <= i < j ==> |faces[i]| == 3
      invariant forall i :: 0 <= i < 3 * j ==> |faces[i / 3]| == 3 && pindices[i] == faces[i / 3][i % 3] % IndexRange
    {
      if |faces[j]| != 3 {
        return Err(j);
      }
      pindices[3 * j] := faces[j][0] % IndexRange;
      pindices[3 * j + 1] := faces[j][1] % IndexRange;
      pindices[3 * j + 2] := faces[j][2] % IndexRange;
      forall i | 3 * j <= i < 3 * j + 3
        ensures i / 3 == j && i % 3 == i - 3 * j
      {
        DivMod3(j, i - 3 * j);
      }
      j := j + 1;
    }
    r := Ok(pindices[..]);
  }

  // ---------------------------------------------------------------------
  // Texture slots.
  // ---------------------------------------------------------------------

  /**
   * One slot: no texture gives handle 0; a named texture must be in the
   * scene's texture map and gives its handle; a missing name is the failure.
   */
  function ResolveSlot(texdata: map<string, nat>, slot: Option<string>): (r: Result<nat, string>)
    ensures slot.None? ==> r == Ok(0)
    ensures slot.Some? ==> (r.Ok? <==> slot.value in texdata)
    ensures slot.Some? && r.Ok? ==> r.value == texdata[slot.value]
    ensures r.Err? ==> slot == Some(r.error) && r.error !in texdata
  {
    match slot
    case None => Ok(0)
    case Some(name) => if name in texdata then Ok(texdata[name]) else Err(name)
  }

  /** A slot's handle agrees with the texture map: 0 for no texture, else the named entry. */
  predicate SlotResolves(texdata: map<string, nat>, slot: Option<string>, handle: nat)
  {
    match slot
    case None => handle == 0
    case Some(name) => name in texdata && handle == texdata[name]
  }

  // ---------------------------------------------------------------------
  // Models and the scene.
  // ---------------------------------------------------------------------

  /** One drawable: its buffers' contents, index count and three texture handles. */
  datatype Model = Model(
    vertices: seq<Attribs>,
    indices: seq<nat>,
    nindices: int,
    texdiff: nat,
    texnorm: nat,
    texspec: nat)

  /** The scene the loader returns: the texture map and one model per mesh. */
  datatype Scene = Scene(texdata: map<string, nat>, models: seq<Model>)

  /** Which check stopped the load, and at which mesh. */
  datatype LoadError =
    | NonTriangleFace(mesh: nat, face: nat)
    | MaterialIndexOutOfRange(mesh: nat)
    | MissingTexture(mesh: nat, name: string)

  /** Loading mesh number `i`, with its checks in the loader's order. */
  function LoadModel(texdata: map<string, nat>, materials: seq<Option<Material>>, m: Mesh, i: nat)
    : (r: Result<Model, LoadError>)
    requires Complete(m)
    ensures r.Ok? ==> AllTriangles(m.faces) && m.materialIndex < |materials|
    ensures r.Ok? ==> r.value.nindices == |r.value.indices| == 3 * |m.faces| && r.value.vertices == Vertices(m)
    ensures r.Err? ==> r.error.mesh == i
  {
    if !AllTriangles(m.faces) then Err(NonTriangleFace(i, FirstNonTriangle(m.faces)))
    else if m.materialIndex >= |materials| then Err(MaterialIndexOutOfRange(i))
    else
      var verts := Vertices(m);
      var idx := Indices(m.faces);
      match materials[m.materialIndex]
      case None => Ok(Model(verts, idx, 3 * |m.faces|, 0, 0, 0))
      case Some(mat) =>
        match ResolveSlot(texdata, mat.diffuse)
        case Err(name) => Err(MissingTexture(i, name))
        case Ok(d) =>
          match ResolveSlot(texdata, mat.normal)
          case Err(name) => Err(MissingTexture(i, name))
          case Ok(n) =>
            match ResolveSlot(texdata, mat.specular)
            case Err(name) => Err(MissingTexture(i, name))
            case Ok(s) => Ok(Model(verts, idx, 3 * |m.faces|, d, n, s))
  }

  predicate AllComplete(meshes: seq<Mesh>)
  {
    forall i :: 0 <= i < |meshes| ==> Complete(meshes[i])
  }

  /** Loading the meshes in order, stopping at the first failure. */
  function LoadAll(texdata: map<string, nat>, materials: seq<Option<Material>>, meshes: seq<Mesh>)
    : (r: Result<seq<Model>, LoadError>)
    requires AllComplete(meshes)
    ensures r.Ok? ==> |r.value| == |meshes|
  {
    if meshes == [] then Ok([])
    else
      var n := |meshes| - 1;
      match LoadAll(texdata, materials, meshes[..n])
      case Err(e) => Err(e)
      case Ok(models) =>
        match LoadModel(texdata, materials, meshes[n], n)
        case Err(e) => Err(e)
        case Ok(model) => Ok(models + [model])
  }

  /** The texture map: every entry of `texmap` loaded through `loadtex`. */
  function TextureMap(texmap: map<string, string>, loadtex: string -> nat): (r: map<string, nat>)
    ensures r.Keys == texmap.Keys
  {
    map k | k in texmap :: loadtex(texmap[k])
  }

  /**
   * `loadscene`: load every texture of `texmap` (through `loadtex`, whose
   * image decoding and upload are not modelled), then every mesh in order.
   */
  method LoadScene(texmap: map<string, string>, loadtex: string -> nat,
                   meshes: seq<Mesh>, materials: seq<Option<Material>>)
    returns (r: Result<Scene, LoadError>)
    requires AllComplete(meshes)
    ensures r.Ok? <==> LoadAll(TextureMap(texmap, loadtex), materials, meshes).Ok?
    ensures r.Ok? ==> r.value == Scene(TextureMap(texmap, loadtex), LoadAll(TextureMap(texmap, loadtex), materials, meshes).value)
    ensures r.Err? ==> r.error == LoadAll(TextureMap(texmap, loadtex), materials, meshes).error
  {
    var texdata := TextureMap(texmap, loadtex);
    var models: seq<Model> := [];
    var i := 0;
    while i < |meshes|
      invariant 0 <= i <= |meshes|
      invariant LoadAll(texdata, materials, meshes[..i]) == Ok(models)
    {
      var m := meshes[i];
      assert meshes[..i + 1][..i] == meshes[..i];
      assert meshes[..i + 1][i] == m;
      var verts := BuildVertices(m);
      assert verts == Vertices(m);
      var flat := FlattenIndices(m.faces);
      if flat.Err? {
        FailureStops(texdata, materials, meshes, i + 1);
        return Err(NonTriangleFace(i, flat.error));
      }
      if m.materialIndex >= |materials| {
        FailureStops(texdata, materials, meshes, i + 1);
        return Err(MaterialIndexOutOfRange(i));
      }
      var texdiff, texnorm, texspec := 0, 0, 0;
      var mat := materials[m.materialIndex];
      if mat.Some? {
        var d := ResolveSlot(texdata, mat.value.diffuse);
        if d.Err? {
          FailureStops(texdata, materials, meshes, i + 1);
          return Err(MissingTexture(i, d.error));
        }
        var n := ResolveSlot(texdata, mat.value.normal);
        if n.Err? {
          FailureStops(texdata, materials, meshes, i + 1);
          return Err(MissingTexture(i, n.error));
        }
        var s := ResolveSlot(texdata, mat.value.specular);
        if s.Err? {
          FailureStops(texdata, materials, meshes, i + 1);
          return Err(MissingTexture(i, s.error));
        }
        texdiff, texnorm, texspec := d.value, n.value, s.value;
      }
      models := models + [Model(verts, flat.value, 3 * |m.faces|, texdiff, texnorm, texspec)];
      i := i + 1;
    }
    assert meshes[..i] == meshes;
    r := Ok(Scene(texdata, models));
  }

  /** Once a prefix of the meshes fails, the whole load fails the same way. */
  lemma {:induction false} FailureStops(texdata: map<string, nat>, materials: seq<Option<Material>>, meshes: seq<Mesh>, k: nat)
    requires AllComplete(meshes) && k <= |meshes|
    requires LoadAll(texdata, materials, meshes[..k]).Err?
    ensures LoadAll(texdata, materials, meshes) == LoadAll(texdata, materials, meshes[..k])
    decreases |meshes| - k
  {
    if k < |meshes| {
      var n := |meshes| - 1;
      assert meshes[..n][..k] == meshes[..k];
      FailureStops(texdata, materials, meshes[..n], k);
    } else {
      assert meshes[..k] == meshes;
    }
  }

  // ---------------------------------------------------------------------
  // What a successful load guarantees.
  // ---------------------------------------------------------------------

  /** A load succeeds exactly when every mesh loads, and then model `i` is mesh `i` loaded. */
  lemma {:induction false} LoadAllOk(texdata: map<string, nat>, materials: seq<Option<Material>>, meshes: seq<Mesh>)
    requires AllComplete(meshes)
    ensures LoadAll(texdata, materials, meshes).Ok?
        <==> forall i :: 0 <= i < |meshes| ==> LoadModel(texdata, materials, meshes[i], i).Ok?
    ensures LoadAll(texdata, materials, meshes).Ok? ==>
      && |LoadAll(texdata, materials, meshes).value| == |meshes|
      && forall i :: 0 <= i < |meshes| ==>
           LoadAll(texdata, materials, meshes).value[i] == LoadModel(texdata, materials, meshes[i], i).value
  {
    if meshes != [] {
      var n := |meshes| - 1;
      LoadAllOk(texdata, materials, meshes[..n]);
      assert forall i :: 0 <= i < n ==> meshes[..n][i] == meshes[i];
    }
  }

  /** A failed load reports the failure of the first mesh that does not load. */
  lemma {:induction false} LoadAllErr(texdata: map<string, nat>, materials: seq<Option<Material>>, meshes: seq<Mesh>)
    requires AllComplete(meshes)
    requires LoadAll(texdata, materials, meshes).Err?
    ensures exists i :: (0 <= i < |meshes|
      && (forall j :: 0 <= j < i ==> LoadModel(texdata, materials, meshes[j], j).Ok?)
      && LoadModel(texdata, materials, meshes[i], i) == Err(LoadAll(texdata, materials, meshes).error))
  {
    var n := |meshes| - 1;
    assert forall j :: 0 <= j < n ==> meshes[..n][j] == meshes[j];
    if LoadAll(texdata, materials, meshes[..n]).Err? {
      LoadAllErr(texdata, materials, meshes[..n]);
      var i :| 0 <= i < n
        && (forall j :: 0 <= j < i ==> LoadModel(texdata, materials, meshes[..n][j], j).Ok?)
        && LoadModel(texdata, materials, meshes[..n][i], i) == Err(LoadAll(texdata, materials, meshes[..n]).error);
      assert LoadModel(texdata, materials, meshes[i], i) == Err(LoadAll(texdata, materials, meshes).error);
    } else {
      LoadAllOk(texdata, materials, meshes[..n]);
      assert LoadModel(texdata, materials, meshes[n], n) == Err(LoadAll(texdata, materials, meshes).error);
    }
  }

  /**
   * A loaded model holds three indices per face, face by face, its material
   * index was in range, and each of its texture handles is 0 when the
   * material is null or the slot is empty, else the map's handle for the
   * slot's texture name.
   */
  lemma LoadModelSound(texdata: map<string, nat>, materials: seq<Option<Material>>, m: Mesh, i: nat)
    requires Complete(m)
    requires LoadModel(texdata, materials, m, i).Ok?
    ensures var model := LoadModel(texdata, materials, m, i).value;
      && AllTriangles(m.faces)
      && model.nindices == |model.indices| == 3 * |m.faces|
      && (forall j, k :: 0 <= j < |m.faces| && 0 <= k < 3 ==> model.indices[3 * j + k] == m.faces[j][k] % IndexRange)
      && m.materialIndex < |materials|
      && (materials[m.materialIndex].None? ==> model.texdiff == model.texnorm == model.texspec == 0)
      && (materials[m.materialIndex].Some? ==>
            var mat := materials[m.materialIndex].value;
            && SlotResolves(texdata, mat.diffuse, model.texdiff)
            && SlotResolves(texdata, mat.normal, model.texnorm)
            && SlotResolves(texdata, mat.specular, model.texspec))
  {
    forall j, k | 0 <= j < |m.faces| && 0 <= k < 3
      ensures LoadModel(texdata, materials, m, i).value.indices[3 * j + k] == m.faces[j][k] % IndexRange
    {
      IndicesAt(m.faces, j, k);
    }
  }

  /**
   * The loader's three failures, each as the outcome for mesh `i` when the
   * earlier checks pass: a face that is not a triangle, a material index out
   * of range, a slot naming a texture the map lacks.
   */
  lemma LoadModelFails(texdata: map<string, nat>, materials: seq<Option<Material>>, m: Mesh, i: nat)
    requires Complete(m)
    ensures !AllTriangles(m.faces) ==>
      LoadModel(texdata, materials, m, i) == Err(NonTriangleFace(i, FirstNonTriangle(m.faces)))
    ensures AllTriangles(m.faces) && m.materialIndex >= |materials| ==>
      LoadModel(texdata, materials, m, i) == Err(MaterialIndexOutOfRange(i))
    ensures AllTriangles(m.faces) && m.materialIndex < |materials| && materials[m.materialIndex].Some? ==>
      var mat := materials[m.materialIndex].value;
      && (mat.diffuse.Some? && mat.diffuse.value !in texdata ==>
            LoadModel(texdata, materials, m, i) == Err(MissingTexture(i, mat.diffuse.value)))
      && (ResolveSlot(texdata, mat.diffuse).Ok? && mat.normal.Some? && mat.normal.value !in texdata ==>
            LoadModel(texdata, materials, m, i) == Err(MissingTexture(i, mat.normal.value)))
      && (ResolveSlot(texdata, mat.diffuse).Ok? && ResolveSlot(texdata, mat.normal).Ok?
          && mat.specular.Some? && mat.specular.value !in texdata ==>
            LoadModel(texdata, materials, m, i) == Err(MissingTexture(i, mat.specular.value)))
  {
  }

  /**
   * The scene invariant: in a loaded scene every texture a model's material
   * names is in the scene's texture map, and the model holds that texture's
   * handle; a mesh naming an absent texture fails the whole load.
   */
  lemma {:induction false} SceneTexturesResolve(texdata: map<string, nat>, materials: seq<Option<Material>>, meshes: seq<Mesh>, i: nat)
    requires AllComplete(meshes)
    requires LoadAll(texdata, materials, meshes).Ok?
    requires i < |meshes|
    ensures meshes[i].materialIndex < |materials|
    ensures var model := LoadAll(texdata, materials, meshes).value[i];
      var mat := materials[meshes[i].materialIndex];
      && (mat.None? ==> model.texdiff == model.texnorm == model.texspec == 0)
      && (mat.Some? ==>
            && SlotResolves(texdata, mat.value.diffuse, model.texdiff)
            && SlotResolves(texdata, mat.value.normal, model.texnorm)
            && SlotResolves(texdata, mat.value.specular, model.texspec))
  {
    LoadAllOk(texdata, materials, meshes);
    LoadModelSound(texdata, materials, meshes[i], i);
  }
}
