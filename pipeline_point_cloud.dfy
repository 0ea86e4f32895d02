/** `pipeline::PointCloud`: one vertex buffer drawn as a point list. */
module PointCloudPipeline {
  import opened Wrappers
  import opened PlyTypes
  import opened Gpu
  import Panics
  import Elements
  import ModelVertex

  /** The struct's value: vertex buffer, records staged by the last `read_ply`, draw count. */
  datatype PointCloud = PointCloud(vertices: Buffer, stageVertices: seq<ModelVertex.Position>, numVertices: U32)
  {
    ghost predicate Valid()
    {
      Gpu.Valid(vertices)
    }

    /** `update_count`: the draw count becomes the header's vertex count; nothing else changes. */
    function UpdateCount(header: Header): (r: PointCloud)
      requires Elements.Name(Elements.Vertex) in header
      ensures r.numVertices == AsU32(header["vertex"])
      ensures r.vertices == vertices && r.stageVertices == stageVertices
    {
      this.(numVertices := AsU32(header[Elements.Name(Elements.Vertex)]))
    }

    /** `needs_resize`: only the vertex buffer is consulted. */
    function NeedsResize(header: Header, tooSmall: TooSmall): (b: bool)
      ensures b == tooSmall(PlainVertexRecord, header, vertices)
    {
      tooSmall(PlainVertexRecord, header, vertices)
    }

    /** `read_ply`: the staged records are replaced wholesale by the vertex element's records. */
    function ReadPly(header: Header, file: PlyFile): (r: PointCloud)
      requires Elements.Name(Elements.Vertex) in header
      ensures r.stageVertices == ModelVertex.ReadAll(file.vertexRows)
      ensures r.vertices == vertices && r.numVertices == numVertices
    {
      this.(stageVertices := ModelVertex.ReadAll(file.vertexRows))
    }

    /** `write_buffer`: exactly the staged records, at offset 0; past the buffer's end it panics. */
    function WriteBuffer(): (r: Result<PointCloud, Panics.Reason>)
      requires Valid()
      ensures r.Ok? <==> ModelVertex.Size * |stageVertices| <= vertices.size
      ensures r.Ok? ==> r.value.Valid() && r.value.vertices.id == vertices.id && r.value.vertices.size == vertices.size
      ensures r.Ok? ==> r.value.stageVertices == stageVertices && r.value.numVertices == numVertices
      ensures r.Ok? ==> r.value.vertices.words[..3 * |stageVertices|] == CastVertices(stageVertices)
      ensures r.Ok? ==> r.value.vertices.words[3 * |stageVertices|..] == vertices.words[3 * |stageVertices|..]
    {
      match Write(vertices, CastVertices(stageVertices))
      case Panic(why) => Panic(why)
      case Ok(b) => Ok(this.(vertices := b))
    }

    /** `render`: draws vertices 0 .. num_vertices of the vertex buffer. */
    function Render(): (d: DrawCall)
      ensures d.Draw? && d.vertexBuffer == vertices.id && d.first == 0 && d.end == numVertices
    {
      Draw(vertices.id, 0, numVertices)
    }
  }

  /**
   * `PointCloud::new`: nothing without a vertex element; otherwise a buffer with room for
   * twice the vertex count, the count as the draw count, and nothing staged.
   */
  function New(header: Header, id: nat): (r: Option<PointCloud>)
    ensures r.None? <==> Elements.Name(Elements.Vertex) !in header
    ensures r.Some? ==> r.value.Valid() && r.value.vertices == Create(id, 24 * header["vertex"])
    ensures r.Some? ==> r.value.numVertices == AsU32(header["vertex"]) && r.value.stageVertices == []
  {
    var vertex := Elements.Name(Elements.Vertex);
    if vertex !in header then None
    else
      var count := header[vertex];
      Some(PointCloud(Create(id, 2 * ModelVertex.Size * count), [], AsU32(count)))
  }

  /** A new point cloud already carries the count `update_count` would give it. */
  lemma UpdateAfterNew(header: Header, id: nat)
    requires "vertex" in header
    ensures New(header, id).value.UpdateCount(header) == New(header, id).value
  {
  }

  /** Staging as many records as the header announces, the write fits the buffer `new` allocated. */
  lemma {:induction false} StagedWriteFits(header: Header, id: nat, file: PlyFile)
    requires "vertex" in header && |file.vertexRows| == header["vertex"]
    ensures New(header, id).value.ReadPly(header, file).WriteBuffer().Ok?
  {
    var pc := New(header, id).value.ReadPly(header, file);
    assert |pc.stageVertices| == header["vertex"];
  }

  /** The struct as its `&mut self` methods see it: fields assigned in place. */
  class MutablePointCloud {
    var vertices: Buffer
    var stageVertices: seq<ModelVertex.Position>
    var numVertices: U32

    function Value(): PointCloud
      reads this
    {
      PointCloud(vertices, stageVertices, numVertices)
    }

    constructor (pc: PointCloud)
      ensures Value() == pc
    {
      vertices, stageVertices, numVertices := pc.vertices, pc.stageVertices, pc.numVertices;
    }

    method UpdateCount(header: Header)
      requires Elements.Name(Elements.Vertex) in header
      modifies this
      ensures Value() == old(Value()).UpdateCount(header)
    {
      numVertices := AsU32(header[Elements.Name(Elements.Vertex)]);
    }

    method ReadPly(header: Header, file: PlyFile)
      requires Elements.Name(Elements.Vertex) in header
      modifies this
      ensures Value() == old(Value()).ReadPly(header, file)
    {
      stageVertices := ModelVertex.ReadAll(file.vertexRows);
    }

    /** Returns false where the write would panic; the struct is then left as it was. */
    method WriteBuffer() returns (ok: bool)
      requires Gpu.Valid(vertices)
      modifies this
      ensures ok == old(Value()).WriteBuffer().Ok?
      ensures ok ==> Value() == old(Value()).WriteBuffer().value
      ensures !ok ==> Value() == old(Value())
    {
      var written := Write(vertices, CastVertices(stageVertices));
      ok := written.Ok?;
      if ok {
        vertices := written.value;
      }
    }
  }
}
