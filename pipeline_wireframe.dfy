/** `pipeline::Wireframe`: a vertex buffer and an edge index buffer drawn as a line list. */
module WireframePipeline {
  import opened Wrappers
  import opened PlyTypes
  import opened Gpu
  import Panics
  import Elements
  import ModelVertex
  import ModelFacet
  import ModelWireframe

  /** Both elements the wireframe reads are announced by the header. */
  predicate HasBoth(header: Header)
  {
    Elements.Name(Elements.Vertex) in header && Elements.Name(Elements.Face) in header
  }

  /** The struct's value: vertex buffer, index buffer, and the count `render` draws. */
  datatype Wireframe = Wireframe(vertices: Buffer, indices: Buffer, numLines: U32)
  {
    ghost predicate Valid()
    {
      Gpu.Valid(vertices) && Gpu.Valid(indices)
    }

    /**
     * `update_count`: three lines per facet, `count as u32 * 3` (wrapping, as a release
     * build does); nothing else changes.
     */
    function UpdateCount(header: Header): (r: Wireframe)
      requires Elements.Name(Elements.Face) in header
      ensures header["face"] * 3 < 0x1_0000_0000 ==> r.numLines == 3 * header["face"]
      ensures r.numLines == (AsU32(header["face"]) * 3) % 0x1_0000_0000
      ensures r.vertices == vertices && r.indices == indices
    {
      this.(numLines := AsU32(AsU32(header[Elements.Name(Elements.Face)]) * 3))
    }

    /** `needs_resize`: either buffer too small; the index buffer is judged by `model::Wireframe`. */
    function NeedsResize(header: Header, tooSmall: TooSmall): (b: bool)
      ensures b <==> tooSmall(PlainVertexRecord, header, vertices) || tooSmall(WireframeRecord, header, indices)
    {
      tooSmall(PlainVertexRecord, header, vertices) || tooSmall(WireframeRecord, header, indices)
    }

    /**
     * `write_buffer`: nothing when either element is missing; otherwise the vertex records,
     * then the edge-expanded face records, each at offset 0. A malformed face panics after
     * the vertices were written; a write past a buffer's end panics.
     */
    function WriteBuffer(header: Header, file: PlyFile): (r: Result<Wireframe, Panics.Reason>)
      requires Valid()
      ensures !HasBoth(header) ==> r == Ok(this)
      ensures HasBoth(header) ==>
        (r.Ok? <==> ModelVertex.Size * |file.vertexRows| <= vertices.size
                    && ModelWireframe.ReadAll(file.faceRows).Ok?
                    && ModelWireframe.Size * |file.faceRows| <= indices.size)
      ensures r.Ok? ==> r.value.Valid() && r.value.numLines == numLines
      ensures r.Ok? ==> r.value.vertices.id == vertices.id && r.value.vertices.size == vertices.size
      ensures r.Ok? ==> r.value.indices.id == indices.id && r.value.indices.size == indices.size
      ensures r.Ok? && HasBoth(header) ==>
        r.value.vertices.words[..3 * |file.vertexRows|] == CastVertices(ModelVertex.ReadAll(file.vertexRows))
      ensures r.Ok? && HasBoth(header) ==>
        r.value.indices.words[..6 * |file.faceRows|] == CastEdges(ModelWireframe.ReadAll(file.faceRows).value)
    {
      if !HasBoth(header) then Ok(this)
      else
        match Write(vertices, CastVertices(ModelVertex.ReadAll(file.vertexRows)))
        case Panic(why) => Panic(why)
        case Ok(vb) =>
          match ModelWireframe.ReadAll(file.faceRows)
          case Panic(why) => Panic(why)
          case Ok(edges) =>
            match Write(indices, CastEdges(edges))
            case Panic(why) => Panic(why)
            case Ok(ib) => Ok(this.(vertices := vb, indices := ib))
    }

    /** `render` as written: an indexed draw over indices 0 .. num_lines. */
    function Render(): (d: DrawCall)
      ensures d.DrawIndexed? && d.vertexBuffer == vertices.id && d.indexBuffer == indices.id
      ensures d.first == 0 && d.end == numLines
    {
      DrawIndexed(vertices.id, indices.id, 0, numLines)
    }

    /** `render` as intended: a line list takes two indices per line, so 2 * num_lines indices. */
    function RenderCorrected(): (d: DrawCall)
      ensures d.DrawIndexed? && d.vertexBuffer == vertices.id && d.indexBuffer == indices.id
      ensures d.first == 0 && d.end == (2 * numLines) % 0x1_0000_0000
    {
      DrawIndexed(vertices.id, indices.id, 0, AsU32(2 * numLines))
    }
  }

  /**
   * `Wireframe::new` as written: nothing unless both elements are announced; room for twice
   * the vertices and for four `TriFacet`s per facet; `num_lines = count as u32 / 2`.
   */
  function New(header: Header, vertexId: nat, indexId: nat): (r: Option<Wireframe>)
    ensures r.None? <==> !HasBoth(header)
    ensures r.Some? ==> r.value.Valid()
    ensures r.Some? ==> r.value.vertices == Create(vertexId, 2 * 12 * header["vertex"])
    ensures r.Some? ==> r.value.indices == Create(indexId, 4 * 12 * header["face"])
    ensures r.Some? ==> r.value.numLines == AsU32(header["face"]) / 2
  {
    if !HasBoth(header) then None
    else
      var vertices := Create(vertexId, 2 * ModelVertex.Size * header[Elements.Name(Elements.Vertex)]);
      var indices := Create(indexId, 4 * ModelFacet.Size * header[Elements.Name(Elements.Face)]);
      Some(Wireframe(vertices, indices, AsU32(header[Elements.Name(Elements.Face)]) / 2))
  }

  /** `Wireframe::new` as intended: the draw count `update_count` computes, three lines per facet. */
  function NewCorrected(header: Header, vertexId: nat, indexId: nat): (r: Option<Wireframe>)
    ensures r.None? <==> !HasBoth(header)
    ensures r.Some? ==> r.value.vertices == New(header, vertexId, indexId).value.vertices
    ensures r.Some? ==> r.value.indices == New(header, vertexId, indexId).value.indices
    ensures r.Some? ==> r.value == New(header, vertexId, indexId).value.UpdateCount(header)
  {
    match New(header, vertexId, indexId)
    case None => None
    case Some(w) => Some(w.UpdateCount(header))
  }

  /** With the corrected constructor, a fresh wireframe already has the count `update_count` gives. */
  lemma UpdateAfterNewCorrected(header: Header, vertexId: nat, indexId: nat)
    requires HasBoth(header)
    ensures NewCorrected(header, vertexId, indexId).value.UpdateCount(header) == NewCorrected(header, vertexId, indexId).value
  {
  }

  /** As written, `new` and `update_count` disagree: two facets give 1 line, then 6. */
  lemma NewDisagreesWithUpdate(vertexId: nat, indexId: nat)
    ensures var header := map["vertex" := 3, "face" := 2];
      New(header, vertexId, indexId).value.numLines == 1
      && New(header, vertexId, indexId).value.UpdateCount(header).numLines == 6
  {
    var header := map["vertex" := 3, "face" := 2];
    assert HasBoth(header);
  }

  /**
   * As written, after `update_count` on f facets the draw covers only half of the 6 * f
   * indices the edge records put in the index buffer.
   */
  lemma RenderDrawsHalfTheEdges(w: Wireframe, header: Header, edges: seq<ModelWireframe.Edges>)
    requires "face" in header && 0 < header["face"] && 6 * header["face"] < 0x1_0000_0000
    requires |edges| == header["face"]
    ensures w.UpdateCount(header).Render().end == 3 * |edges|
    ensures 2 * w.UpdateCount(header).Render().end == |CastEdges(edges)|
  {
  }

  /** As intended, after `update_count` the draw covers exactly the indices the edge records fill. */
  lemma RenderCorrectedDrawsEveryEdge(w: Wireframe, header: Header, edges: seq<ModelWireframe.Edges>)
    requires "face" in header && 6 * header["face"] < 0x1_0000_0000
    requires |edges| == header["face"]
    ensures w.UpdateCount(header).RenderCorrected().end == |CastEdges(edges)|
  {
  }

  /** The struct as its `&mut self` methods see it. */
  class MutableWireframe {
    var vertices: Buffer
    var indices: Buffer
    var numLines: U32

    function Value(): Wireframe
      reads this
    {
      Wireframe(vertices, indices, numLines)
    }

    constructor (w: Wireframe)
      ensures Value() == w
    {
      vertices, indices, numLines := w.vertices, w.indices, w.numLines;
    }

    method UpdateCount(header: Header)
      requires Elements.Name(Elements.Face) in header
      modifies this
      ensures Value() == old(Value()).UpdateCount(header)
    {
      numLines := AsU32(AsU32(header[Elements.Name(Elements.Face)]) * 3);
    }

    /** Returns false where the source panics; the struct is then left as it was. */
    method WriteBuffer(header: Header, file: PlyFile) returns (ok: bool)
      requires Value().Valid()
      modifies this
      ensures ok == old(Value()).WriteBuffer(header, file).Ok?
      ensures ok ==> Value() == old(Value()).WriteBuffer(header, file).value
      ensures !ok ==> Value() == old(Value())
    {
      ok := true;
      if !HasBoth(header) {
        return;
      }
      var vb := Write(vertices, CastVertices(ModelVertex.ReadAll(file.vertexRows)));
      if vb.Panic? {
        return false;
      }
      var edges := ModelWireframe.ReadAll(file.faceRows);
      if edges.Panic? {
        return false;
      }
      var ib := Write(indices, CastEdges(edges.value));
      if ib.Panic? {
        return false;
      }
      vertices, indices := vb.value, ib.value;
    }
  }
}
