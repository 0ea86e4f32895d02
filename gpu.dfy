/**
 * The GPU as the ingestion code sees it: buffers with an identity, a byte size and contents,
 * `queue.write_buffer` at offset 0, and the readiness of the process-wide DEVICE and QUEUE.
 */
module Gpu {
  import opened Wrappers
  import opened PlyTypes
  import Panics
  import ModelVertex
  import ModelFacet
  import ModelWireframe

  /** Whether `DEVICE.get()` and `QUEUE.get()` return a handle at the moment of a call. */
  datatype GpuState = GpuState(device: bool, queue: bool)

  /** A `wgpu::Buffer`: a handle, its size in bytes, and its contents as 4-byte words. */
  datatype Buffer = Buffer(id: nat, size: nat, words: seq<Word>)

  /** The record types whose `buffer_too_small(header, buffer)` the code consults. */
  datatype RecordType = PlainVertexRecord | WireframeRecord

  /**
   * `R::buffer_too_small(header, buffer)`, whose definition is not part of this model:
   * every operation takes it as a parameter, so what is proved holds for any definition.
   */
  type TooSmall = (RecordType, Header, Buffer) -> bool

  /** The primitive topology of an artifact kind's render pipeline. */
  datatype Topology = PointList | LineList | TriangleList

  /** What `render` records in the render pass: a draw over a vertex range or an index range. */
  datatype DrawCall =
    | Draw(vertexBuffer: nat, first: nat, end: nat)
    | DrawIndexed(vertexBuffer: nat, indexBuffer: nat, first: nat, end: nat)

  ghost predicate Valid(b: Buffer)
  {
    |b.words| == b.size / 4
  }

  /** `device.create_buffer`: a fresh, zero-filled buffer (wgpu zero-initialises new buffers). */
  function Create(id: nat, size: nat): (b: Buffer)
    ensures Valid(b) && b.id == id && b.size == size
    ensures forall i :: 0 <= i < |b.words| ==> b.words[i] == 0
  {
    Buffer(id, size, seq(size / 4, _ => 0))
  }

  /**
   * `queue.write_buffer(&b, 0, data)`: the first |data| words are replaced and the rest kept;
   * data longer than the buffer is a wgpu validation error, whose default handler panics.
   */
  function Write(b: Buffer, data: seq<Word>): (r: Result<Buffer, Panics.Reason>)
    requires Valid(b)
    ensures r.Ok? <==> 4 * |data| <= b.size
    ensures r.Ok? ==> Valid(r.value) && r.value.id == b.id && r.value.size == b.size
    ensures r.Ok? ==> r.value.words[..|data|] == data && r.value.words[|data|..] == b.words[|data|..]
  {
    if |data| <= |b.words| then Ok(Buffer(b.id, b.size, data + b.words[|data|..]))
    else Panic(Panics.WriteOutOfBounds)
  }

  /** Concatenation of per-record word lists: what `bytemuck::cast_slice` does to a record slice. */
  function Flatten(rows: seq<seq<Word>>): seq<Word>
  {
    if rows == [] then [] else Flatten(rows[..|rows| - 1]) + rows[|rows| - 1]
  }

  /** Records before record k end before record k starts. */
  lemma RecordsPrecede(n: nat, i: nat, k: nat)
    requires i < k
    ensures n * i + n <= n * k
  {
    assert n * k == n * i + n * (k - i);
    assert n * (k - i) == n + n * (k - i - 1);
  }

  /** With records of n words each, the flattening has n words per record. */
  lemma {:induction false} FlattenLength(rows: seq<seq<Word>>, n: nat)
    requires forall i :: 0 <= i < |rows| ==> |rows[i]| == n
    ensures |Flatten(rows)| == n * |rows|
  {
    if rows != [] {
      var init := rows[..|rows| - 1];
      assert forall i :: 0 <= i < |init| ==> init[i] == rows[i];
      FlattenLength(init, n);
      assert n * |rows| == n * |init| + n;
    }
  }

  /** With records of n words each, word n*i + j of the flattening is word j of record i. */
  lemma {:induction false} FlattenAt(rows: seq<seq<Word>>, n: nat, i: nat, j: nat)
    requires forall i :: 0 <= i < |rows| ==> |rows[i]| == n
    requires i < |rows| && j < n
    ensures n * i + j < |Flatten(rows)| && Flatten(rows)[n * i + j] == rows[i][j]
  {
    var init, k := rows[..|rows| - 1], |rows| - 1;
    FlattenLength(init, n);
    FlattenLength(rows, n);
    if i < k {
      RecordsPrecede(n, i, k);
      assert init[i] == rows[i];
      FlattenAt(init, n, i, j);
    }
  }

  /** `cast_slice` of vertex records: three position words per vertex. */
  function CastVertices(ps: seq<ModelVertex.Position>): (w: seq<Word>)
    ensures |w| * 4 == ModelVertex.Size * |ps|
  {
    var rows := seq(|ps|, i requires 0 <= i < |ps| => ModelVertex.Words(ps[i]));
    VertexLayout(ps, rows);
    Flatten(rows)
  }

  /** Word `3 * i + j` of the cast is coordinate `j` of vertex `i`. */
  lemma CastVerticesAt(ps: seq<ModelVertex.Position>)
    ensures forall i, j :: 0 <= i < |ps| && 0 <= j < 3 ==> 3 * i + j < |CastVertices(ps)| && CastVertices(ps)[3 * i + j] == ps[i][j].bits
  {
    VertexLayout(ps, seq(|ps|, i requires 0 <= i < |ps| => ModelVertex.Words(ps[i])));
  }

  lemma VertexLayout(ps: seq<ModelVertex.Position>, rows: seq<seq<Word>>)
    requires |rows| == |ps| && forall i :: 0 <= i < |ps| ==> rows[i] == ModelVertex.Words(ps[i])
    ensures |Flatten(rows)| * 4 == ModelVertex.Size * |ps|
    ensures forall i, j :: 0 <= i < |ps| && 0 <= j < 3 ==> 3 * i + j < |Flatten(rows)| && Flatten(rows)[3 * i + j] == ps[i][j].bits
  {
    FlattenLength(rows, 3);
    forall i, j | 0 <= i < |ps| && 0 <= j < 3
      ensures 3 * i + j < |Flatten(rows)| && Flatten(rows)[3 * i + j] == ps[i][j].bits
    {
      FlattenAt(rows, 3, i, j);
      assert rows[i][j] == ps[i][j].bits;
    }
  }

  /** `cast_slice` of triangle records: three index words per facet. */
  function CastTriangles(ts: seq<ModelFacet.Triangle>): (w: seq<Word>)
    ensures |w| * 4 == ModelFacet.Size * |ts|
  {
    var rows := seq(|ts|, i requires 0 <= i < |ts| => ModelFacet.Words(ts[i]));
    TriangleLayout(ts, rows);
    Flatten(rows)
  }

  /** Word `3 * i + j` of the cast is corner `j` of triangle `i`. */
  lemma CastTrianglesAt(ts: seq<ModelFacet.Triangle>)
    ensures forall i, j :: 0 <= i < |ts| && 0 <= j < 3 ==> 3 * i + j < |CastTriangles(ts)| && CastTriangles(ts)[3 * i + j] == I32Bits(ts[i][j])
  {
    TriangleLayout(ts, seq(|ts|, i requires 0 <= i < |ts| => ModelFacet.Words(ts[i])));
  }

  lemma TriangleLayout(ts: seq<ModelFacet.Triangle>, rows: seq<seq<Word>>)
    requires |rows| == |ts| && forall i :: 0 <= i < |ts| ==> rows[i] == ModelFacet.Words(ts[i])
    ensures |Flatten(rows)| * 4 == ModelFacet.Size * |ts|
    ensures forall i, j :: 0 <= i < |ts| && 0 <= j < 3 ==> 3 * i + j < |Flatten(rows)| && Flatten(rows)[3 * i + j] == I32Bits(ts[i][j])
  {
    FlattenLength(rows, 3);
    forall i, j | 0 <= i < |ts| && 0 <= j < 3
      ensures 3 * i + j < |Flatten(rows)| && Flatten(rows)[3 * i + j] == I32Bits(ts[i][j])
    {
      FlattenAt(rows, 3, i, j);
      assert rows[i][j] == I32Bits(ts[i][j]);
    }
  }

  /** `cast_slice` of wireframe records: six index words (three edges) per facet. */
  function CastEdges(es: seq<ModelWireframe.Edges>): (w: seq<Word>)
    ensures |w| * 4 == ModelWireframe.Size * |es|
  {
    var rows := seq(|es|, i requires 0 <= i < |es| => ModelWireframe.Words(es[i]));
    EdgeLayout(es, rows);
    Flatten(rows)
  }

  /** Word `6 * i + j` of the cast is endpoint `j` of the edges of facet `i`. */
  lemma CastEdgesAt(es: seq<ModelWireframe.Edges>)
    ensures forall i, j :: 0 <= i < |es| && 0 <= j < 6 ==> 6 * i + j < |CastEdges(es)| && CastEdges(es)[6 * i + j] == I32Bits(es[i][j])
  {
    EdgeLayout(es, seq(|es|, i requires 0 <= i < |es| => ModelWireframe.Words(es[i])));
  }

  lemma EdgeLayout(es: seq<ModelWireframe.Edges>, rows: seq<seq<Word>>)
    requires |rows| == |es| && forall i :: 0 <= i < |es| ==> rows[i] == ModelWireframe.Words(es[i])
    ensures |Flatten(rows)| * 4 == ModelWireframe.Size * |es|
    ensures forall i, j :: 0 <= i < |es| && 0 <= j < 6 ==> 6 * i + j < |Flatten(rows)| && Flatten(rows)[6 * i + j] == I32Bits(es[i][j])
  {
    FlattenLength(rows, 6);
    forall i, j | 0 <= i < |es| && 0 <= j < 6
      ensures 6 * i + j < |Flatten(rows)| && Flatten(rows)[6 * i + j] == I32Bits(es[i][j])
    {
      FlattenAt(rows, 6, i, j);
      assert rows[i][j] == I32Bits(es[i][j]);
    }
  }
}
