/** `pipeline::Mesh`: a vertex buffer and a triangle index buffer drawn as a triangle list. */
module MeshPipeline {
  import opened Wrappers
  import opened PlyTypes
  import opened Gpu
  import Panics
  import Elements
  import ModelVertex
  import ModelFacet

  predicate HasBoth(header: Header)
  {
    Elements.Name(Elements.Vertex) in header && Elements.Name(Elements.Face) in header
  }

  /** The struct's value: vertex buffer, index buffer, and the facet count `render` draws. */
  datatype Mesh = Mesh(vertices: Buffer, indices: Buffer, numFacets: U32)
  {
    ghost predicate Valid()
    {
      Gpu.Valid(vertices) && Gpu.Valid(indices)
    }

    /** `update_count`: the draw count becomes the header's face count; nothing else changes. */
    function UpdateCount(header: Header): (r: Mesh)
      requires Elements.Name(Elements.Face) in header
      ensures r.numFacets == AsU32(header["face"])
      ensures r.vertices == vertices && r.indices == indices
    {
      this.(numFacets := AsU32(header[Elements.Name(Elements.Face)]))
    }

    /** `needs_resize`: either buffer too small; the index buffer is judged by `model::Wireframe`. */
    function NeedsResize(header: Header, tooSmall: TooSmall): (b: bool)
      ensures b <==> tooSmall(PlainVertexRecord, header, vertices) || tooSmall(WireframeRecord, header, indices)
    {
      tooSmall(PlainVertexRecord, header, vertices) || tooSmall(WireframeRecord, header, indices)
    }

    /**
     * `write_buffer`: the vertex records, then the three-index face records, each at offset 0.
     * A missing element is an `unwrap` panic; so is a write past a buffer's end.
     */
    function WriteBuffer(header: Header, file: PlyFile): (r: Result<Mesh, Panics.Reason>)
      requires Valid()
      ensures r.Ok? <==> HasBoth(header)
                         && ModelVertex.Size * |file.vertexRows| <= vertices.size
                         && ModelFacet.Size * |file.faceRows| <= indices.size
      ensures r.Ok? ==> r.value.Valid() && r.value.numFacets == numFacets
      ensures r.Ok? ==> r.value.vertices.id == vertices.id && r.value.vertices.size == vertices.size
      ensures r.Ok? ==> r.value.indices.id == indices.id && r.value.indices.size == indices.size
      ensures r.Ok? ==>
        r.value.vertices.words[..3 * |file.vertexRows|] == CastVertices(ModelVertex.ReadAll(file.vertexRows))
      ensures r.Ok? ==>
        r.value.indices.words[..3 * |file.faceRows|] == CastTriangles(ModelFacet.ReadAll(file.faceRows))
    {
      if Elements.Name(Elements.Vertex) !in header then Panic(Panics.MissingElement("vertex"))
      else
        match Write(vertices, CastVertices(ModelVertex.ReadAll(file.vertexRows)))
        case Panic(why) => Panic(why)
        case Ok(vb) =>
          if Elements.Name(Elements.Face) !in header then Panic(Panics.MissingElement("face"))
          else
            match Write(indices, CastTriangles(ModelFacet.ReadAll(file.faceRows)))
            case Panic(why) => Panic(why)
            case Ok(ib) => Ok(this.(vertices := vb, indices := ib))
    }

    /** `render` as written: an indexed draw over indices 0 .. num_facets. */
    function Render(): (d: DrawCall)
      ensures d.DrawIndexed? && d.vertexBuffer == vertices.id && d.indexBuffer == indices.id
      ensures d.first == 0 && d.end == numFacets
    {
      DrawIndexed(vertices.id, indices.id, 0, numFacets)
    }

    /** `render` as intended: a triangle list takes three indices per facet. */
    function RenderCorrected(): (d: DrawCall)
      ensures d.DrawIndexed? && d.vertexBuffer == vertices.id && d.indexBuffer == indices.id
      ensures d.first == 0 && d.end == (3 * numFacets) % 0x1_0000_0000
    {
      DrawIndexed(vertices.id, indices.id, 0, AsU32(3 * numFacets))
    }
  }

  /**
   * `Mesh::new`: nothing unless both elements are announced; room for twice the vertices and
   * for four `TriFacet`s per facet; the face count as the draw count.
   */
  function New(header: Header, vertexId: nat, indexId: nat): (r: Option<Mesh>)
    ensures r.None? <==> !HasBoth(header)
    ensures r.Some? ==> r.value.Valid()
    ensures r.Some? ==> r.value.vertices == Create(vertexId, 2 * 12 * header["vertex"])
    ensures r.Some? ==> r.value.indices == Create(indexId, 4 * 12 * header["face"])
    ensures r.Some? ==> r.value.numFacets == AsU32(header["face"])
  {
    if !HasBoth(header) then None
    else
      var vertices := Create(vertexId, 2 * ModelVertex.Size * header[Elements.Name(Elements.Vertex)]);
      var indices := Create(indexId, 4 * ModelFacet.Size * header[Elements.Name(Elements.Face)]);
      Some(Mesh(vertices, indices, AsU32(header[Elements.Name(Elements.Face)])))
  }

  /** A new mesh already carries the count `update_count` would give it. */
  lemma UpdateAfterNew(header: Header, vertexId: nat, indexId: nat)
    requires HasBoth(header)
    ensures New(header, vertexId, indexId).value.UpdateCount(header) == New(header, vertexId, indexId).value
  {
  }

  /** With as many records as the header announces, both writes fit the buffers `new` allocated. */
  lemma {:induction false} WriteFitsNew(header: Header, vertexId: nat, indexId: nat, file: PlyFile)
    requires HasBoth(header)
    requires |file.vertexRows| == header["vertex"] && |file.faceRows| == header["face"]
    ensures New(header, vertexId, indexId).value.WriteBuffer(header, file).Ok?
  {
    var m := New(header, vertexId, indexId).value;
    assert ModelVertex.Size * |file.vertexRows| <= m.vertices.size;
    assert ModelFacet.Size * |file.faceRows| <= m.indices.size;
  }

  /** As written, f facets put 3 * f indices in the buffer and the draw covers only f of them. */
  lemma RenderDrawsAThird(m: Mesh, header: Header, faces: seq<ModelFacet.Triangle>)
    requires "face" in header && 0 < header["face"] && 3 * header["face"] < 0x1_0000_0000
    requires |faces| == header["face"]
    ensures m.UpdateCount(header).Render().end == |faces|
    ensures 3 * m.UpdateCount(header).Render().end == |CastTriangles(faces)|
  {
  }

  /** As intended, after `update_count` the draw covers exactly the indices the facet records fill. */
  lemma RenderCorrectedDrawsEveryFacet(m: Mesh, header: Header, faces: seq<ModelFacet.Triangle>)
    requires "face" in header && 3 * header["face"] < 0x1_0000_0000
    requires |faces| == header["face"]
    ensures m.UpdateCount(header).RenderCorrected().end == |CastTriangles(faces)|
  {
  }

  /** The struct as its `&mut self` methods see it. */
  class MutableMesh {
    var vertices: Buffer
    var indices: Buffer
    var numFacets: U32

    function Value(): Mesh
      reads this
    {
      Mesh(vertices, indices, numFacets)
    }

    constructor (m: Mesh)
      ensures Value() == m
    {
      vertices, indices, numFacets := m.vertices, m.indices, m.numFacets;
    }

    method UpdateCount(header: Header)
      requires Elements.Name(Elements.Face) in header
      modifies this
      ensures Value() == old(Value()).UpdateCount(header)
    {
      numFacets := AsU32(header[Elements.Name(Elements.Face)]);
    }

    /** Returns false where the source panics; the struct is then left as it was. */
    method WriteBuffer(header: Header, file: PlyFile) returns (ok: bool)
      requires Value().Valid()
      modifies this
      ensures ok == old(Value()).WriteBuffer(header, file).Ok?
      ensures ok ==> Value() == old(Value()).WriteBuffer(header, file).value
      ensures !ok ==> Value() == old(Value())
    {
      if !HasBoth(header) {
        return false;
      }
      var vb := Write(vertices, CastVertices(ModelVertex.ReadAll(file.vertexRows)));
      var ib := Write(indices, CastTriangles(ModelFacet.ReadAll(file.faceRows)));
      ok := vb.Ok? && ib.Ok?;
      if ok {
        vertices, indices := vb.value, ib.value;
      }
    }
  }
}
