/** `Artifact`: the three kinds of renderable artifact, and how a PLY header is classified. */
module Artifacts {
  import opened Wrappers
  import opened PlyTypes
  import opened Gpu
  import Panics
  import Elements
  import ModelVertex
  import ModelFacet
  import ModelWireframe
  import PC = PointCloudPipeline
  import WF = WireframePipeline
  import MP = MeshPipeline

  datatype Artifact =
    | PointCloud(pc: PC.PointCloud)
    | Wireframe(w: WF.Wireframe)
    | Mesh(m: MP.Mesh)
  {
    ghost predicate Valid()
    {
      match this
      case PointCloud(pc) => pc.Valid()
      case Wireframe(w) => w.Valid()
      case Mesh(m) => m.Valid()
    }

    /** The topology the kind's `create_pipeline` chooses. */
    function Topology(): (t: Topology)
      ensures t == PointList <==> PointCloud?
      ensures t == LineList <==> Wireframe?
      ensures t == TriangleList <==> Mesh?
    {
      match this
      case PointCloud(_) => PointList
      case Wireframe(_) => LineList
      case Mesh(_) => TriangleList
    }

    /**
     * `Artifact::needs_resize`: a point cloud asks about its vertex buffer; the other kinds
     * about either buffer, judging the index buffer by `model::Wireframe`.
     */
    function NeedsResize(header: Header, tooSmall: TooSmall): (b: bool)
      ensures PointCloud? ==> (b <==> tooSmall(PlainVertexRecord, header, pc.vertices))
      ensures Wireframe? ==>
        (b <==> tooSmall(PlainVertexRecord, header, w.vertices) || tooSmall(WireframeRecord, header, w.indices))
      ensures Mesh? ==>
        (b <==> tooSmall(PlainVertexRecord, header, m.vertices) || tooSmall(WireframeRecord, header, m.indices))
    {
      match this
      case PointCloud(pc) => tooSmall(PlainVertexRecord, header, pc.vertices)
      case Wireframe(w) => tooSmall(PlainVertexRecord, header, w.vertices) || tooSmall(WireframeRecord, header, w.indices)
      case Mesh(m) => tooSmall(PlainVertexRecord, header, m.vertices) || tooSmall(WireframeRecord, header, m.indices)
    }

    /**
     * `update_count` of the kind: a point cloud reads the vertex count, the other kinds the
     * face count; a missing element is an `unwrap` panic. The kind and its buffers stay.
     */
    function UpdateCount(header: Header): (r: Result<Artifact, Panics.Reason>)
      ensures r.Panic? <==> (if PointCloud? then "vertex" !in header else "face" !in header)
      ensures r.Ok? ==> r.value.SameBuffers(this) && (Valid() ==> r.value.Valid())
      ensures r.Ok? && PointCloud? ==> r.value == PointCloud(pc.UpdateCount(header))
      ensures r.Ok? && Wireframe? ==> r.value == Wireframe(w.UpdateCount(header))
      ensures r.Ok? && Mesh? ==> r.value == Mesh(m.UpdateCount(header))
    {
      match this
      case PointCloud(pc) =>
        if Elements.Name(Elements.Vertex) in header then Ok(PointCloud(pc.UpdateCount(header)))
        else Panic(Panics.MissingElement("vertex"))
      case Wireframe(w) =>
        if Elements.Name(Elements.Face) in header then Ok(Wireframe(w.UpdateCount(header)))
        else Panic(Panics.MissingElement("face"))
      case Mesh(m) =>
        if Elements.Name(Elements.Face) in header then Ok(Mesh(m.UpdateCount(header)))
        else Panic(Panics.MissingElement("face"))
    }

    /** The vertex buffer begins with the file's vertex records, cast to words. */
    predicate HoldsVertices(file: PlyFile)
    {
      3 * |file.vertexRows| <= |VertexWords()| && VertexWords()[..3 * |file.vertexRows|] == CastVertices(ModelVertex.ReadAll(file.vertexRows))
    }

    /** The same kind with the same buffer handles and sizes (contents may differ). */
    predicate SameBuffers(other: Artifact)
    {
      Topology() == other.Topology() && SameHandle(VertexBuffer(), other.VertexBuffer())
      && (Wireframe? ==> SameHandle(w.indices, other.w.indices))
      && (Mesh? ==> SameHandle(m.indices, other.m.indices))
    }

    /**
     * `Artifact::write_buffer`: the vertex records, and for the two indexed kinds then their
     * index records (edge-expanded for a wireframe, triangles for a mesh), each at offset 0.
     * A missing element is an `unwrap` panic, as are a malformed face and a write past the end.
     */
    function WriteBuffer(header: Header, file: PlyFile): (r: Result<Artifact, Panics.Reason>)
      requires Valid()
      ensures "vertex" !in header ==> r.Panic?
      ensures !PointCloud? && "face" !in header ==> r.Panic?
      ensures r.Ok? ==> r.value.Valid() && r.value.SameBuffers(this) && r.value.Counts() == Counts()
      ensures r.Ok? ==> r.value.HoldsVertices(file)
      ensures r.Ok? && Wireframe? ==>
        ModelWireframe.ReadAll(file.faceRows).Ok?
        && 6 * |file.faceRows| <= |r.value.w.indices.words| && r.value.w.indices.words[..6 * |file.faceRows|] == CastEdges(ModelWireframe.ReadAll(file.faceRows).value)
      ensures r.Ok? && Mesh? ==>
        3 * |file.faceRows| <= |r.value.m.indices.words| && r.value.m.indices.words[..3 * |file.faceRows|] == CastTriangles(ModelFacet.ReadAll(file.faceRows))
    {
      if Elements.Name(Elements.Vertex) !in header then Panic(Panics.MissingElement("vertex"))
      else
        match Write(VertexBuffer(), CastVertices(ModelVertex.ReadAll(file.vertexRows)))
        case Panic(why) => Panic(why)
        case Ok(vb) =>
          match this
          case PointCloud(pc) => Ok(PointCloud(pc.(vertices := vb)))
          case Wireframe(w) =>
            if Elements.Name(Elements.Face) !in header then Panic(Panics.MissingElement("face"))
            else
              (match ModelWireframe.ReadAll(file.faceRows)
               case Panic(why) => Panic(why)
               case Ok(edges) =>
                 match Write(w.indices, CastEdges(edges))
                 case Panic(why) => Panic(why)
                 case Ok(ib) => Ok(Wireframe(w.(vertices := vb, indices := ib))))
          case Mesh(m) =>
            if Elements.Name(Elements.Face) !in header then Panic(Panics.MissingElement("face"))
            else
              match Write(m.indices, CastTriangles(ModelFacet.ReadAll(file.faceRows)))
              case Panic(why) => Panic(why)
              case Ok(ib) => Ok(Mesh(m.(vertices := vb, indices := ib)))
    }

    /**
     * The kind's own `read_ply` and `write_buffer(queue)`, as the sequencer calls them: a point
     * cloud stages the vertex records and writes what it staged; the indexed kinds read and
     * write through their `write_buffer`.
     */
    function ReadAndWrite(header: Header, file: PlyFile): (r: Result<Artifact, Panics.Reason>)
      requires Valid()
      ensures PointCloud? && "vertex" !in header ==> r.Panic?
      ensures PointCloud? && "vertex" in header ==> r == LiftPointCloud(pc.ReadPly(header, file).WriteBuffer())
      ensures Wireframe? ==> r == LiftWireframe(w.WriteBuffer(header, file))
      ensures Mesh? ==> r == LiftMesh(m.WriteBuffer(header, file))
      ensures r.Ok? ==> r.value.Valid() && r.value.SameBuffers(this)
    {
      match this
      case PointCloud(pc) =>
        if Elements.Name(Elements.Vertex) !in header then Panic(Panics.MissingElement("vertex"))
        else LiftPointCloud(pc.ReadPly(header, file).WriteBuffer())
      case Wireframe(w) => LiftWireframe(w.WriteBuffer(header, file))
      case Mesh(m) => LiftMesh(m.WriteBuffer(header, file))
    }

    function VertexBuffer(): (b: Buffer)
      ensures PointCloud? ==> b == pc.vertices
      ensures Wireframe? ==> b == w.vertices
      ensures Mesh? ==> b == m.vertices
    {
      match this
      case PointCloud(pc) => pc.vertices
      case Wireframe(w) => w.vertices
      case Mesh(m) => m.vertices
    }

    function VertexWords(): seq<Word>
    {
      VertexBuffer().words
    }

    /** The draw count of the kind. */
    function Counts(): U32
    {
      match this
      case PointCloud(pc) => pc.numVertices
      case Wireframe(w) => w.numLines
      case Mesh(m) => m.numFacets
    }

    /** The draw each kind records, with the index counts corrected as the findings describe. */
    function Render(): (d: DrawCall)
      ensures PointCloud? ==> d == pc.Render()
      ensures Wireframe? ==> d == w.RenderCorrected()
      ensures Mesh? ==> d == m.RenderCorrected()
    {
      match this
      case PointCloud(pc) => pc.Render()
      case Wireframe(w) => w.RenderCorrected()
      case Mesh(m) => m.RenderCorrected()
    }
  }

  predicate SameHandle(a: Buffer, b: Buffer)
  {
    a.id == b.id && a.size == b.size
  }

  function LiftPointCloud(r: Result<PC.PointCloud, Panics.Reason>): (a: Result<Artifact, Panics.Reason>)
    ensures a.Ok? == r.Ok? && (r.Ok? ==> a.value == PointCloud(r.value))
  {
    match r
    case Ok(pc) => Ok(PointCloud(pc))
    case Panic(why) => Panic(why)
  }

  function LiftWireframe(r: Result<WF.Wireframe, Panics.Reason>): (a: Result<Artifact, Panics.Reason>)
    ensures a.Ok? == r.Ok? && (r.Ok? ==> a.value == Wireframe(r.value))
  {
    match r
    case Ok(w) => Ok(Wireframe(w))
    case Panic(why) => Panic(why)
  }

  function LiftMesh(r: Result<MP.Mesh, Panics.Reason>): (a: Result<Artifact, Panics.Reason>)
    ensures a.Ok? == r.Ok? && (r.Ok? ==> a.value == Mesh(r.value))
  {
    match r
    case Ok(m) => Ok(Mesh(m))
    case Panic(why) => Panic(why)
  }

  /** The elements of the header the schema recognises; every other name is dropped. */
  function Recognized(header: Header): (s: set<Elements.Element>)
    ensures forall e :: e in s <==> Elements.Name(e) in header
  {
    (if Elements.Name(Elements.Vertex) in header then {Elements.Vertex} else {})
    + (if Elements.Name(Elements.Face) in header then {Elements.Face} else {})
  }

  /** The four shapes `Recognized` can take, with their sizes. */
  lemma RecognizedCases(header: Header)
    ensures var v, f := Elements.Name(Elements.Vertex) in header, Elements.Name(Elements.Face) in header;
      (v && f ==> Recognized(header) == {Elements.Vertex, Elements.Face} && |Recognized(header)| == 2)
      && (v && !f ==> Recognized(header) == {Elements.Vertex} && |Recognized(header)| == 1)
      && (!v && f ==> Recognized(header) == {Elements.Face} && |Recognized(header)| == 1)
      && (!v && !f ==> Recognized(header) == {} && |Recognized(header)| == 0)
  {
  }

  /** `Recognized` is the `filter_map(Element::from)` of the header's keys, collected into a set. */
  lemma RecognizedIsFilterMap(header: Header)
    ensures Recognized(header) == set k | k in header && Elements.FromName(k).Some? :: Elements.FromName(k).value
  {
    var s := set k | k in header && Elements.FromName(k).Some? :: Elements.FromName(k).value;
    forall e ensures e in s <==> e in Recognized(header) {
      if e in Recognized(header) {
        assert Elements.FromName(Elements.Name(e)) == Some(e);
      }
    }
  }

  /**
   * `Artifact::new`: one recognised element makes a point cloud (its vertex count unwrapped,
   * so a lone face element panics), two make a wireframe; a mesh is never made; nothing
   * recognised gives nothing. Draw counts start at zero, for `update_count` to fill in.
   */
  function New(header: Header, vertexId: nat, indexId: nat): (r: Result<Option<Artifact>, Panics.Reason>)
    ensures r.Panic? <==> Recognized(header) == {Elements.Face}
    ensures Recognized(header) == {} ==> r == Ok(None)
    ensures Recognized(header) == {Elements.Vertex} ==>
      r == Ok(Some(PointCloud(PC.PointCloud(Create(vertexId, 2 * 12 * header["vertex"]), [], 0))))
    ensures Recognized(header) == {Elements.Vertex, Elements.Face} ==>
      r == Ok(Some(Wireframe(WF.Wireframe(Create(vertexId, 4 * 12 * header["vertex"]),
                                          Create(indexId, 4 * 12 * header["face"]), 0))))
    ensures r.Ok? && r.value.Some? ==> r.value.value.Valid() && !r.value.value.Mesh?
  {
    RecognizedCases(header);
    var keys := Recognized(header);
    if |keys| == 1 then
      if Elements.Vertex !in keys then Panic(Panics.MissingElement("vertex"))
      else
        var count := header[Elements.Name(Elements.Vertex)];
        Ok(Some(PointCloud(PC.PointCloud(Create(vertexId, 2 * ModelVertex.Size * count), [], 0))))
    else if |keys| == 2 then
      var vertices := Create(vertexId, 4 * ModelVertex.Size * header[Elements.Name(Elements.Vertex)]);
      var indices := Create(indexId, 4 * ModelFacet.Size * header[Elements.Name(Elements.Face)]);
      Ok(Some(Wireframe(WF.Wireframe(vertices, indices, 0))))
    else Ok(None)
  }

  /** Extra, unrecognised element names never change the classification. */
  lemma NewIgnoresUnrecognised(header: Header, name: string, count: nat, vertexId: nat, indexId: nat)
    requires Elements.FromName(name).None?
    ensures New(header[name := count], vertexId, indexId) == New(header, vertexId, indexId)
  {
    assert Recognized(header[name := count]) == Recognized(header);
  }

  /**
   * For the counts the header announces, what `new` allocates holds what `write_buffer` then
   * writes: the write succeeds unless a face record is malformed.
   */
  lemma {:induction false} NewHoldsWhatIsWritten(header: Header, vertexId: nat, indexId: nat, file: PlyFile)
    requires New(header, vertexId, indexId).Ok? && New(header, vertexId, indexId).value.Some?
    requires |file.vertexRows| == header["vertex"]
    requires "face" in header ==> |file.faceRows| == header["face"]
    ensures var a := New(header, vertexId, indexId).value.value;
      a.WriteBuffer(header, file).Ok? <==> a.PointCloud? || ModelWireframe.ReadAll(file.faceRows).Ok?
  {
    var a := New(header, vertexId, indexId).value.value;
    var vertexWords := CastVertices(ModelVertex.ReadAll(file.vertexRows));
    assert 4 * |vertexWords| <= a.VertexBuffer().size;
    if a.Wireframe? {
      assert Recognized(header) == {Elements.Vertex, Elements.Face};
      match ModelWireframe.ReadAll(file.faceRows)
      case Ok(edges) =>
        assert 4 * |CastEdges(edges)| <= a.w.indices.size;
      case Panic(_) =>
    }
  }

  /** `Artifact::write_buffer` agrees with the mesh pipeline's `write_buffer`. */
  lemma WriteBufferIsMeshWrite(m: MP.Mesh, header: Header, file: PlyFile)
    requires m.Valid()
    ensures Mesh(m).WriteBuffer(header, file).Ok? == m.WriteBuffer(header, file).Ok?
    ensures Mesh(m).WriteBuffer(header, file).Ok? ==> Mesh(m).WriteBuffer(header, file) == LiftMesh(m.WriteBuffer(header, file))
  {
  }

  /** With both elements present, `Artifact::write_buffer` agrees with the wireframe pipeline's. */
  lemma WriteBufferIsWireframeWrite(w: WF.Wireframe, header: Header, file: PlyFile)
    requires w.Valid() && WF.HasBoth(header)
    ensures Wireframe(w).WriteBuffer(header, file) == LiftWireframe(w.WriteBuffer(header, file))
  {
  }
}
