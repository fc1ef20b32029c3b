/**
 * The step of `main` that turns each parsed geometry into something to draw: its vertex
 * data gets a value for every attribute the shader reads, computed tangents where the
 * geometry has texture coordinates and normals, and its material is the default material
 * overlaid with the record the MTL file gave that name. The WebGL buffers and vertex array
 * objects made from the result are not part of this model.
 */
module Assemble {
  import opened Wrappers
  import opened Obj
  import Mtl
  import Tangents

  // ---------------------------------------------------------------------------------
  // Attribute defaulting

  /** What one attribute of the vertex data holds once `main` has filled it in. */
  datatype AttribData =
    | Plain(data: seq<real>)                      // the array itself
    | Sized(numComponents: nat, data: seq<real>)  // `{ numComponents, data }`
    | Constant(value: seq<real>)                  // `{ value }`: the same value for every vertex
    | NotANumber                                  // tangents over positions that run out: the raw tangent has NaN components

  /** The vertex data `createBufferInfoFromArrays` is given; the position buffer may be missing. */
  datatype VertexData = VertexData(position: Option<seq<real>>, color: AttribData, tangent: AttribData,
                                   texcoord: AttribData, normal: AttribData)

  /** The `TypeError` thrown when `data.position` is missing but read. */
  datatype PrepareError = NoPositions

  /** Whether the geometry has what tangents are generated from. */
  predicate HasTangentSources(data: map<Attribute, seq<real>>) {
    Texcoord in data && Normal in data
  }

  /** The tangents `generateTangents(data.position, data.texcoord)` computes: without indices, by the unindexed iterator. */
  function TangentData(position: seq<real>, texcoord: seq<real>, normalize: Tangents.Vec3 -> Tangents.Vec3): (r: AttribData)
    ensures r.Plain? ==> |position| <= |r.data| < |position| + 9
  {
    var a := Tangents.Arrays(position, texcoord, None);
    Tangents.UnindexedFaceCount(a);
    if Tangents.Covered(a) then Plain(Tangents.Tangents(a, normalize)) else NotANumber
  }

  /**
   * The body of `obj.geometries.map` up to the buffer creation (scriptWithObjects.js:474-506):
   * colors of three components per position are marked as such, and every missing attribute
   * gets its constant: white, the tangent (1, 0, 0), texture coordinate (0, 0), normal (0, 0, 1).
   */
  function Prepare(data: map<Attribute, seq<real>>, normalize: Tangents.Vec3 -> Tangents.Vec3): (r: Result<VertexData, PrepareError>)
    ensures r.Err? <==> Position !in data && (Color in data || HasTangentSources(data))
  {
    if (Color in data || HasTangentSources(data)) && Position !in data then
      // `data.position.length`, or `positions.length` inside `makeUnindexedIterator`
      Err(NoPositions)
    else
      var color :=
        if Color !in data then Constant([1.0, 1.0, 1.0, 1.0])
        else if |data[Position]| == |data[Color]| then Sized(3, data[Color])
        else Plain(data[Color]);
      var tangent :=
        if HasTangentSources(data) then TangentData(data[Position], data[Texcoord], normalize)
        else Constant([1.0, 0.0, 0.0]);
      var texcoord := if Texcoord in data then Plain(data[Texcoord]) else Constant([0.0, 0.0]);
      var normal := if Normal in data then Plain(data[Normal]) else Constant([0.0, 0.0, 1.0]);
      var position := if Position in data then Some(data[Position]) else None;
      Ok(VertexData(position, color, tangent, texcoord, normal))
  }

  /**
   * Every buffer the geometry has is passed on unchanged, and every attribute it lacks gets
   * its constant; colors are marked three-component exactly when there is one per position component.
   */
  lemma PrepareKeepsBuffers(data: map<Attribute, seq<real>>, normalize: Tangents.Vec3 -> Tangents.Vec3)
    requires Prepare(data, normalize).Ok?
    ensures var v := Prepare(data, normalize).value;
      && (v.position.Some? <==> Position in data)
      && (Position in data ==> v.position.value == data[Position])
      && (Color in data ==>
            && v.color.data == data[Color]
            && (v.color.Sized? <==> |data[Color]| == |data[Position]|)
            && (v.color.Sized? ==> v.color.numComponents == 3))
      && (Color !in data ==> v.color == Constant([1.0, 1.0, 1.0, 1.0]))
      && (Texcoord in data ==> v.texcoord == Plain(data[Texcoord]))
      && (Texcoord !in data <==> v.texcoord == Constant([0.0, 0.0]))
      && (Normal in data ==> v.normal == Plain(data[Normal]))
      && (Normal !in data <==> v.normal == Constant([0.0, 0.0, 1.0]))
      && (!HasTangentSources(data) <==> v.tangent == Constant([1.0, 0.0, 0.0]))
  {
    var v := Prepare(data, normalize).value;
    if HasTangentSources(data) {
      assert !v.tangent.Constant?;
    }
  }

  /**
   * A geometry with texture coordinates, normals and whole unindexed triangles of positions
   * gets generated tangents, nine numbers per triangle: one per position component.
   */
  lemma TangentsForWholeTriangles(data: map<Attribute, seq<real>>, normalize: Tangents.Vec3 -> Tangents.Vec3)
    requires Position in data && HasTangentSources(data) && |data[Position]| % 9 == 0
    ensures Prepare(data, normalize).Ok?
    ensures var a := Tangents.Arrays(data[Position], data[Texcoord], None);
      Tangents.Covered(a) && Prepare(data, normalize).value.tangent == Plain(Tangents.Tangents(a, normalize))
    ensures |Prepare(data, normalize).value.tangent.data| == |data[Position]|
  {
    var a := Tangents.Arrays(data[Position], data[Texcoord], None);
    Tangents.UnindexedFaceCount(a);
    forall k | 0 <= k < 3 * Tangents.FaceCount(a)
      ensures Tangents.VertexIndex(a.indices, k).Some? ==> 3 * Tangents.VertexIndex(a.indices, k).value + 3 <= |a.position|
    {
      assert Tangents.VertexIndex(a.indices, k) == Some(k);
    }
    Tangents.WholePositionsCover(a);
    Tangents.Repeat3Length(Tangents.FaceTangents(a, normalize, Tangents.FaceCount(a)));
  }

  // ---------------------------------------------------------------------------------
  // Material merge

  /**
   * A texture: the two made for the defaults, or the one made from a file name. The
   * loader keeps its textures in an object keyed by file name, so two maps naming the same
   * file share a texture, and a map named like one of the defaults gets that default.
   */
  datatype Texture = DefaultWhite | DefaultNormal | FromFile(filename: string)

  /** `textures[filename]`, creating it when missing (scriptWithObjects.js:399-411). */
  function TextureFor(filename: string): (t: Texture)
    ensures t.FromFile? <==> filename != "defaultWhite" && filename != "defaultNormal"
    ensures t.FromFile? ==> t.filename == filename
    ensures filename == "defaultWhite" ==> t == DefaultWhite
    ensures filename == "defaultNormal" ==> t == DefaultNormal
  {
    if filename == "defaultWhite" then DefaultWhite
    else if filename == "defaultNormal" then DefaultNormal
    else FromFile(filename)
  }

  /** The material a part is drawn with: every uniform the shader reads has a value. */
  datatype RenderMaterial = RenderMaterial(
    diffuse: seq<real>,
    diffuseMap: Texture,
    normalMap: Texture,
    ambient: seq<real>,
    specular: seq<real>,
    specularMap: Texture,
    shininess: real,
    opacity: real,
    emissive: Option<seq<real>>,
    opticalDensity: Option<real>,
    illum: Option<JsText.JsInt>)

  /** `defaultMaterial`. */
  function DefaultMaterial(): RenderMaterial {
    RenderMaterial([1.0, 1.0, 1.0], DefaultWhite, DefaultNormal, [0.0, 0.0, 0.0], [1.0, 1.0, 1.0],
                   DefaultWhite, 5.0, 1.0, None, None, None)
  }

  function OrElse<T>(o: Option<T>, otherwise: T): T {
    if o.Some? then o.value else otherwise
  }

  function TextureOrElse(o: Option<string>, otherwise: Texture): Texture {
    if o.Some? then TextureFor(o.value) else otherwise
  }

  /**
   * `{...defaultMaterial, ...materials[name]}` after the map file names were replaced by
   * textures: the parsed record's own properties win over the defaults, and a name the
   * library does not define spreads nothing, so it is drawn with the default material.
   */
  function Merge(materials: map<string, Mtl.Material>, name: string): (r: RenderMaterial)
    ensures name !in materials ==> r == DefaultMaterial()
  {
    var d := DefaultMaterial();
    var m := if name in materials then materials[name] else Mtl.EmptyMaterial();
    RenderMaterial(
      OrElse(m.diffuse, d.diffuse),
      TextureOrElse(m.diffuseMap, d.diffuseMap),
      TextureOrElse(m.normalMap, d.normalMap),
      OrElse(m.ambient, d.ambient),
      OrElse(m.specular, d.specular),
      TextureOrElse(m.specularMap, d.specularMap),
      OrElse(m.shininess, d.shininess),
      OrElse(m.opacity, d.opacity),
      m.emissive,
      m.opticalDensity,
      m.illum)
  }

  /** Each property the MTL record sets is the one drawn with; each it leaves unset is the default. */
  lemma RecordOverridesDefaults(materials: map<string, Mtl.Material>, name: string)
    requires name in materials
    ensures var m, r, d := materials[name], Merge(materials, name), DefaultMaterial();
      && (m.diffuse.Some? ==> r.diffuse == m.diffuse.value) && (m.diffuse.None? ==> r.diffuse == d.diffuse)
      && (m.ambient.Some? ==> r.ambient == m.ambient.value) && (m.ambient.None? ==> r.ambient == d.ambient)
      && (m.specular.Some? ==> r.specular == m.specular.value) && (m.specular.None? ==> r.specular == d.specular)
      && (m.shininess.Some? ==> r.shininess == m.shininess.value) && (m.shininess.None? ==> r.shininess == d.shininess)
      && (m.opacity.Some? ==> r.opacity == m.opacity.value) && (m.opacity.None? ==> r.opacity == d.opacity)
      && (m.diffuseMap.Some? ==> r.diffuseMap == TextureFor(m.diffuseMap.value)) && (m.diffuseMap.None? ==> r.diffuseMap == DefaultWhite)
      && (m.normalMap.Some? ==> r.normalMap == TextureFor(m.normalMap.value)) && (m.normalMap.None? ==> r.normalMap == DefaultNormal)
      && (m.specularMap.Some? ==> r.specularMap == TextureFor(m.specularMap.value)) && (m.specularMap.None? ==> r.specularMap == DefaultWhite)
      && r.emissive == m.emissive && r.opticalDensity == m.opticalDensity && r.illum == m.illum
  {
  }

  /** The material a `Kd` line set is the diffuse color the part is drawn with. */
  lemma DiffuseFromLibrary(materials: map<string, Mtl.Material>, name: string)
    requires name in materials && Mtl.Get(materials[name], Mtl.Kd).Some?
    ensures Mtl.Get(materials[name], Mtl.Kd) == Some(Mtl.Vector(Merge(materials, name).diffuse))
  {
  }

  /** The loop that sets every parsed material's shininess to 25 and its specular color to white. */
  function Hacked(materials: map<string, Mtl.Material>): (r: map<string, Mtl.Material>)
    ensures r.Keys == materials.Keys
  {
    map name | name in materials :: materials[name].(shininess := Some(25.0), specular := Some([1.0, 1.0, 1.0]))
  }

  /**
   * After that loop, a material the library defines is drawn with shininess 25 and a white
   * specular color whatever its record said, and with its own values for the rest.
   */
  lemma HackedMaterialsShine(materials: map<string, Mtl.Material>, name: string)
    requires name in materials
    ensures var m, r := materials[name], Merge(Hacked(materials), name);
      && r.shininess == 25.0 && r.specular == [1.0, 1.0, 1.0]
      && r.diffuse == OrElse(m.diffuse, DefaultMaterial().diffuse)
      && r.ambient == OrElse(m.ambient, DefaultMaterial().ambient)
      && r.opacity == OrElse(m.opacity, DefaultMaterial().opacity)
      && r.diffuseMap == TextureOrElse(m.diffuseMap, DefaultWhite)
      && r.normalMap == TextureOrElse(m.normalMap, DefaultNormal)
      && r.specularMap == TextureOrElse(m.specularMap, DefaultWhite)
  {
    assert Hacked(materials)[name] == materials[name].(shininess := Some(25.0), specular := Some([1.0, 1.0, 1.0]));
  }

  // ---------------------------------------------------------------------------------
  // The parts

  /** One entry of `parts`, without its `bufferInfo` and `vao`. */
  datatype Part = Part(material: RenderMaterial, data: VertexData)

  /** `obj.geometries.map(...)`: the parts in geometry order, or the first exception thrown. */
  function Parts(gs: seq<Geometry>, materials: map<string, Mtl.Material>,
                 normalize: Tangents.Vec3 -> Tangents.Vec3): (r: Result<seq<Part>, PrepareError>)
    ensures r.Ok? <==> forall j :: 0 <= j < |gs| ==> Prepare(gs[j].data, normalize).Ok?
    ensures r.Ok? ==> |r.value| == |gs|
    ensures r.Ok? ==> forall j :: 0 <= j < |gs| ==>
      r.value[j] == Part(Merge(materials, gs[j].material), Prepare(gs[j].data, normalize).value)
  {
    if gs == [] then Ok([])
    else
      match Parts(gs[..|gs| - 1], materials, normalize)
      case Err(e) => Err(e)
      case Ok(ps) =>
        var g := gs[|gs| - 1];
        match Prepare(g.data, normalize)
        case Err(e) => Err(e)
        case Ok(v) => Ok(ps + [Part(Merge(materials, g.material), v)])
  }

  /**
   * For a model `parseOBJ` returned, only the last geometry can make `main` throw: it is the
   * only one that can lack positions, and it throws only when it has colors or tangent sources.
   */
  lemma ParsedModelFailsOnlyAtLast(text: string, parseFloat: string -> real, materials: map<string, Mtl.Material>,
                                   normalize: Tangents.Vec3 -> Tangents.Vec3)
    requires Parse(text, parseFloat).Ok?
    ensures var gs := Parse(text, parseFloat).value.geometries;
      Parts(gs, materials, normalize).Err? ==>
        |gs| > 0 && Position !in gs[|gs| - 1].data
        && (Color in gs[|gs| - 1].data || HasTangentSources(gs[|gs| - 1].data))
  {
    var gs := Parse(text, parseFloat).value.geometries;
    ParsedGeometriesHavePositions(text, parseFloat);
    if Parts(gs, materials, normalize).Err? {
      var j :| 0 <= j < |gs| && Prepare(gs[j].data, normalize).Err?;
      assert j == |gs| - 1;
    }
  }
}
