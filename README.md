# worldview ingestion core, modelled in Dafny

worldview is a viewer for the point clouds, wireframes and meshes a 3D reconstruction pipeline
writes out as PLY files. A producer finds the files: a scripted playback over a directory, or an
inotify watcher. The producer hands each file to an injector or sequencer. That component reads
the file's PLY header and classifies the artifact by the elements it declares. It then keeps at
most one set of GPU buffers per key in a shared table. It drops an entry whose buffers are too
small and allocates one that is missing, but only once the GPU device exists. Then it writes the
records into the buffers and tells the render thread. The render thread caches a pipeline, a
uniform buffer and a bind group per key, and draws every artifact in the table.

This project models that core and proves properties of it. GPU buffers are records with an
identity, a byte size and their contents as 32-bit words. A PLY header is a map from element name
to count, and a file's payload is its rows of parsed properties. An explicit `Panicked` ending
stands for each of these:

- the unwrap of an unreadable header in `playback.rs`;
- an `unwrap` of a header element that is missing;
- `QUEUE.get().unwrap()`;
- a frame number that does not fit a `u32`;
- an inotify event without a name;
- the `panic!` on a face that is not a triangle;
- a buffer write past the end.

The modules follow the source files:

- `Wrappers` and `Panics` (wrappers.dfy): `Option`, `Result` and the reasons a step can panic.
- `Elements`, `ModelVertex`, `ModelFacet`, `ModelWireframe`: `element.rs` and `model/*.rs`. Each
  record is a value with a pure specification. A small class with an `array` field does
  `set_property` in place and is proved against that specification.
- `PlyTypes`, `Gpu`: the parser's property values, `u32` and `i32` arithmetic, buffers, writes and
  draw calls.
- `PointCloudPipeline`, `WireframePipeline`, `MeshPipeline`: `pipeline/*.rs`. Each pipeline
  struct is a datatype. A `Mutable*` class whose methods assign its fields is proved equal to the
  datatype's functions.
- `Artifacts`: `artifact.rs`, covering classification and sizing in `Artifact::new`,
  `needs_resize`, `write_buffer` and the per-kind dispatch.
- `Keys`, `PlyNames`, `Listing`: `Key`, the file-name patterns as string parsers over their
  captures, and sorted, filtered directory passes.
- `Tables`: the shared `HashMap<Key, Artifact>` with its event channel and buffer allocator, as a
  class.
- `SequenceReplace`, `Loader`, `InjectorSequence`, `Playback`: `sequence/replace.rs`,
  `loader.rs`, `injector/sequence.rs` and `playback.rs`. Each is a step function, and every
  method is proved against its step function.
- `Injectors`, `InjectPlayback`, `InjectorPlayback`, `Inotify`: `injector/mod.rs` and the
  producers' loops, run over given listings or event batches.
- `Window`: `window.rs`, the lazy cache fill and the draw loop of `redraw`.

The source files come from several revisions of the program, and not every pair agrees. Each
module follows the file it models:

- `Key` has an `instance` in `sequence/replace.rs` and `loader.rs` but a `frame` in `key.rs` and
  `playback.rs`, so `Keys` declares both shapes.
- `Element::Face` and `Element::Facet` are one constructor, whose wire name is `"face"`.
- `Artifact::new` in `artifact.rs` makes point clouds and wireframes only.
- The window draws through `Artifacts.Artifact.Render`, which uses the corrected draw counts (see
  Findings and Left out).

Behaviour of the code worth knowing:

- In `sequence/replace.rs` the instance is part of a key's identity.
- A missing vertex element panics. `sequence/replace.rs` rejects a file quietly only when its vertex element is empty.
- Buffers are allocated at two or four times the exact size.
- `inject/playback.rs` waits after every file `add` accepts, while `playback.rs` waits only when the frame number changes.

## Model

| member | source | states |
|---|---|---|
| Elements.FromName | src/element.rs:8-14 | "vertex" and "face", exactly, name the two elements, and every other string names none (each direction stated) |
| Elements.Name | src/element.rs:17-23 | an element's wire name is read back by `from` as that same element |
| Elements.NameInjective | src/element.rs:17-23 | two elements with the same wire name are the same element |
| Elements.FromNameInverse | src/element.rs:8-23 | a name `from` recognises is the wire name of the element it yields |
| ModelVertex.New | src/model/vertex.rs:25-27 | a fresh vertex is the origin: all three coordinates are 0.0 |
| ModelVertex.Axis | src/model/vertex.rs:30-33 | "x", "y" and "z", and only they, address coordinates 0, 1 and 2 |
| ModelVertex.WithProperty | src/model/vertex.rs:29-36 | a `Float` named x, y or z overwrites that coordinate and no other; any other name or kind leaves the vertex unchanged |
| ModelVertex.WithPropertyIdempotent | src/model/vertex.rs:29-36 | setting the same property twice is the same as setting it once |
| ModelVertex.LastWriteWins | src/model/vertex.rs:29-36 | of two `Float` writes to one coordinate the later one is what remains |
| ModelVertex.ReadRecordCoordinate | src/model/vertex.rs:24-36 | in a record read from a row, each coordinate is the last `Float` the row gives for its name, and 0.0 when there is none |
| ModelVertex.ReadAll | src/pipeline/point_cloud.rs:106-111 | reading an element yields one record per row, in row order, each read as `new` followed by `set_property` per property |
| ModelVertex.Words | src/model/vertex.rs:4-8 | the `repr(C)` record is 12 bytes: the bit patterns of x, y and z in that order |
| ModelVertex.PlainVertex.constructor | src/model/vertex.rs:25-27 | the record's array holds three zero coordinates |
| ModelVertex.PlainVertex.SetProperty | src/model/vertex.rs:29-36 | the array after the in-place set is `WithProperty` of the array before |
| ModelWireframe.Element | src/model/wireframe.rs:11-13 | wireframe records are read from the element named "face" |
| ModelWireframe.New | src/model/wireframe.rs:17-21 | a fresh record holds six zero indices |
| ModelWireframe.EdgesOf | src/model/wireframe.rs:27 | the triangle [a, b, c] becomes the edges (a, b), (b, c), (c, a): entry 2i is corner i and entry 2i+1 the next corner round |
| ModelWireframe.EdgesDoubleEachIndex | src/model/wireframe.rs:27 | the edge list holds every corner of the triangle exactly twice as often as the triangle does |
| ModelWireframe.WithProperty | src/model/wireframe.rs:23-34 | a three-entry `ListInt` named vertex_indices becomes its edge list; a `ListInt` of any other length panics, and that is the only panic; any other name or kind changes nothing |
| ModelWireframe.EachIndexTwice | src/model/wireframe.rs:25-27 | setting vertex_indices from [a, b, c] succeeds and leaves every index twice as often as in [a, b, c] |
| ModelWireframe.ReadRecordPanics | src/model/wireframe.rs:23-34 | reading a row panics exactly when one of its vertex_indices lists does not have three entries |
| ModelWireframe.ReadAll | src/model/wireframe.rs:23-34 | reading an element succeeds with one record per row in row order, or panics; it panics only if some row's read panics |
| ModelWireframe.Words | src/model/wireframe.rs:4-8 | the `repr(C)` record is 24 bytes: the two's-complement words of its six indices in order |
| ModelWireframe.Wireframe.constructor | src/model/wireframe.rs:17-21 | the record's array holds six zeros |
| ModelWireframe.Wireframe.SetProperty | src/model/wireframe.rs:23-34 | returns false exactly where the source panics (array then unchanged); otherwise the array becomes `WithProperty` of the array before |
| ModelFacet.Element | src/model/facet.rs:11-13 | facets are read from the element named "face" |
| ModelFacet.New | src/model/facet.rs:17-21 | a fresh facet holds three zero indices |
| ModelFacet.WithProperty | src/model/facet.rs:23-32 | a three-entry `ListInt` named vertex_indices replaces the facet; a list of another length, another name or another kind leaves it unchanged (no panic) |
| ModelFacet.WithPropertyIdempotent | src/model/facet.rs:23-32 | setting the same property twice is the same as setting it once |
| ModelFacet.ReadRecordLastTriangle | src/model/facet.rs:16-32 | a facet read from a row is the row's last three-entry vertex_indices list, and zeros when there is none |
| ModelFacet.ReadAll | src/model/facet.rs:16-32 | reading an element yields one facet per row, in row order |
| ModelFacet.Words | src/model/facet.rs:4-8 | the `repr(C)` facet is 12 bytes: the two's-complement words of its three indices |
| ModelFacet.TriFacet.constructor | src/model/facet.rs:17-21 | the facet's array holds three zeros |
| ModelFacet.TriFacet.SetProperty | src/model/facet.rs:23-32 | the array after the in-place set is `WithProperty` of the array before |
| PlyTypes.AsU32 | src/pipeline/point_cloud.rs:30 | `count as u32` keeps every count below 2^32 unchanged (larger ones are truncated modulo 2^32) |
| PlyTypes.I32Bits | src/model/facet.rs:4-8 | a non-negative `i32` is laid out as itself, a negative one as its two's-complement word |
| PointCloudPipeline.PointCloud.UpdateCount | src/pipeline/point_cloud.rs:36-42 | the draw count becomes the header's vertex count as `u32`; the buffer and the staged records are unchanged |
| PointCloudPipeline.PointCloud.NeedsResize | src/pipeline/point_cloud.rs:102-104 | only the vertex buffer is judged too small or not |
| PointCloudPipeline.PointCloud.ReadPly | src/pipeline/point_cloud.rs:106-112 | the staged records are replaced by the vertex element's records; buffer and count are unchanged |
| PointCloudPipeline.PointCloud.WriteBuffer | src/pipeline/point_cloud.rs:114-116 | the write succeeds exactly when the staged records fit the buffer; then the buffer's prefix holds exactly their words, the rest of it, its handle and the other fields stay as they were |
| PointCloudPipeline.PointCloud.Render | src/pipeline/point_cloud.rs:118-121 | a plain draw of vertices 0 .. num_vertices from the vertex buffer |
| PointCloudPipeline.New | src/pipeline/point_cloud.rs:13-32 | nothing exactly when the header has no vertex element; otherwise a fresh, zeroed buffer of 24 bytes per vertex, the vertex count as draw count, nothing staged |
| PointCloudPipeline.UpdateAfterNew | src/pipeline/point_cloud.rs:30-42 | a new point cloud already has the count `update_count` would give it |
| PointCloudPipeline.StagedWriteFits | src/pipeline/point_cloud.rs:106-116 | staging as many records as the header announces, the write into the buffer `new` allocated does not overrun it |
| PointCloudPipeline.MutablePointCloud.constructor | src/pipeline/point_cloud.rs:6-10 | the fields hold the given value |
| PointCloudPipeline.MutablePointCloud.UpdateCount | src/pipeline/point_cloud.rs:36-42 | the fields after are `UpdateCount` of the fields before |
| PointCloudPipeline.MutablePointCloud.ReadPly | src/pipeline/point_cloud.rs:106-112 | the fields after are `ReadPly` of the fields before |
| PointCloudPipeline.MutablePointCloud.WriteBuffer | src/pipeline/point_cloud.rs:114-116 | returns false exactly where the write panics, fields then unchanged; otherwise the fields are the successful `WriteBuffer` value |
| WireframePipeline.Wireframe.UpdateCount | src/pipeline/wireframe.rs:105-112 | the draw count becomes three lines per facet, `count as u32 * 3` wrapping modulo 2^32, and exactly 3f when that fits; the buffers are unchanged |
| WireframePipeline.Wireframe.NeedsResize | src/pipeline/wireframe.rs:114-117 | too small exactly when the vertex buffer is too small for vertices or the index buffer too small for wireframe records |
| WireframePipeline.Wireframe.WriteBuffer | src/pipeline/wireframe.rs:119-140 | nothing changes when either element is missing; otherwise it succeeds exactly when the vertices fit, every face is a triangle and the edge records fit, and then the buffers' prefixes hold the vertex words and the edge words, their handles and the draw count unchanged |
| WireframePipeline.Wireframe.Render | src/pipeline/wireframe.rs:142-146 | as written: an indexed draw of indices 0 .. num_lines over the two buffers |
| WireframePipeline.Wireframe.RenderCorrected | src/pipeline/wireframe.rs:142-146 | as intended: an indexed draw of 2 * num_lines indices, two per line |
| WireframePipeline.New | src/pipeline/wireframe.rs:13-43 | nothing exactly when either element is missing; otherwise zeroed buffers of 24 bytes per vertex and 48 bytes per facet, and `num_lines = count as u32 / 2` |
| WireframePipeline.NewCorrected | src/pipeline/wireframe.rs:13-43 | the same buffers as `new`, with the count `update_count` computes |
| WireframePipeline.UpdateAfterNewCorrected | src/pipeline/wireframe.rs:105-112 | with the corrected constructor, `update_count` right after `new` changes nothing |
| WireframePipeline.NewDisagreesWithUpdate | src/pipeline/wireframe.rs:41-112 | a header with two facets gives 1 line from `new` and 6 from `update_count` |
| WireframePipeline.RenderDrawsHalfTheEdges | src/pipeline/wireframe.rs:142-146 | as written, after `update_count` on f facets the draw ends at 3f, half of the 6f indices the edge records fill |
| WireframePipeline.RenderCorrectedDrawsEveryEdge | src/pipeline/wireframe.rs:142-146 | as intended, after `update_count` the draw ends exactly at the number of indices the edge records fill |
| WireframePipeline.MutableWireframe.constructor | src/pipeline/wireframe.rs:6-10 | the fields hold the given value |
| WireframePipeline.MutableWireframe.UpdateCount | src/pipeline/wireframe.rs:105-112 | the fields after are `UpdateCount` of the fields before |
| WireframePipeline.MutableWireframe.WriteBuffer | src/pipeline/wireframe.rs:119-140 | returns false exactly where the source panics, fields then unchanged; otherwise the fields are the successful `WriteBuffer` value |
| MeshPipeline.Mesh.UpdateCount | src/pipeline/mesh.rs:47-53 | the draw count becomes the header's face count as `u32`; the buffers are unchanged |
| MeshPipeline.Mesh.NeedsResize | src/pipeline/mesh.rs:113-116 | too small exactly when the vertex buffer is too small for vertices or the index buffer too small for wireframe records (the record type the source consults) |
| MeshPipeline.Mesh.WriteBuffer | src/pipeline/mesh.rs:118-132 | succeeds exactly when both elements are announced and both record sets fit; then the buffers' prefixes hold the vertex words and the triangle words, handles and draw count unchanged; a missing element is an `unwrap` panic |
| MeshPipeline.Mesh.Render | src/pipeline/mesh.rs:134-138 | as written: an indexed draw of indices 0 .. num_facets |
| MeshPipeline.Mesh.RenderCorrected | src/pipeline/mesh.rs:134-138 | as intended: an indexed draw of 3 * num_facets indices, three per facet |
| MeshPipeline.New | src/pipeline/mesh.rs:13-43 | nothing exactly when either element is missing; otherwise zeroed buffers of 24 bytes per vertex and 48 bytes per facet, and the face count as draw count |
| MeshPipeline.UpdateAfterNew | src/pipeline/mesh.rs:41-53 | a new mesh already has the count `update_count` would give it |
| MeshPipeline.WriteFitsNew | src/pipeline/mesh.rs:118-132 | with as many records as the header announces, both writes into the buffers `new` allocated succeed |
| MeshPipeline.RenderDrawsAThird | src/pipeline/mesh.rs:134-138 | as written, f facets put 3f indices in the buffer and the draw ends at f |
| MeshPipeline.RenderCorrectedDrawsEveryFacet | src/pipeline/mesh.rs:134-138 | as intended, the draw ends exactly at the number of indices the facet records fill |
| MeshPipeline.MutableMesh.constructor | src/pipeline/mesh.rs:6-10 | the fields hold the given value |
| MeshPipeline.MutableMesh.UpdateCount | src/pipeline/mesh.rs:47-53 | the fields after are `UpdateCount` of the fields before |
| MeshPipeline.MutableMesh.WriteBuffer | src/pipeline/mesh.rs:118-132 | returns false exactly where the source panics, fields then unchanged; otherwise the fields are the successful `WriteBuffer` value |
| Gpu.Create | src/pipeline/point_cloud.rs:20-25 | `create_buffer` gives a buffer of the requested size and handle whose every word is zero |
| Gpu.Write | src/pipeline/point_cloud.rs:115 | `write_buffer` at offset 0 succeeds exactly when the data fits; then the first words are the data, the rest and the handle are kept |
| Gpu.CastVertices | src/model/vertex.rs:4-8 | `cast_slice` of n vertices is 12n bytes |
| Gpu.CastVerticesAt | src/model/vertex.rs:4-8 | word 3i+j of the cast is coordinate j of vertex i |
| Gpu.CastTriangles | src/model/facet.rs:4-8 | `cast_slice` of n facets is 12n bytes |
| Gpu.CastTrianglesAt | src/model/facet.rs:4-8 | word 3i+j of the cast is corner j of facet i |
| Gpu.CastEdges | src/model/wireframe.rs:4-8 | `cast_slice` of n wireframe records is 24n bytes |
| Gpu.CastEdgesAt | src/model/wireframe.rs:4-8 | word 6i+j of the cast is entry j of the edges of facet i |
| Artifacts.Artifact.Topology | src/artifact.rs:167-177 | each kind's pipeline has its own topology: points for a point cloud, lines for a wireframe, triangles for a mesh (each direction stated) |
| Artifacts.Artifact.NeedsResize | src/artifact.rs:100-114 | a point cloud is too small exactly when its vertex buffer is; the other kinds when either buffer is, the index buffer judged as wireframe records |
| Artifacts.Artifact.UpdateCount | src/loader.rs:104-105 | panics exactly when the element its kind counts (vertex for a point cloud, face otherwise) is missing; otherwise the kind's own `update_count`, with kind and buffers unchanged |
| Artifacts.Artifact.WriteBuffer | src/artifact.rs:116-157 | a missing vertex element, or a missing face element for the indexed kinds, panics; on success the kind, handles and counts are unchanged, the vertex buffer begins with the file's vertex words, and the index buffer with the edge words of a wireframe or the triangle words of a mesh |
| Artifacts.Artifact.ReadAndWrite | src/sequence/replace.rs:99-101 | a point cloud stages the vertex records with `read_ply` and writes them, the indexed kinds use their own `write_buffer`; success keeps kind and handles |
| Artifacts.Artifact.VertexBuffer | src/artifact.rs:38-42 | the vertex buffer of whichever kind it is |
| Artifacts.Artifact.Render | src/window.rs:283-307 | each kind is drawn by its own pipeline's render: the point cloud's as written, the wireframe's and the mesh's with the index counts corrected as under Findings |
| Artifacts.LiftPointCloud | src/artifact.rs:38-42 | the result fails exactly when the pipeline's does, and wraps its value as a point cloud |
| Artifacts.LiftWireframe | src/artifact.rs:38-42 | the result fails exactly when the pipeline's does, and wraps its value as a wireframe |
| Artifacts.LiftMesh | src/artifact.rs:38-42 | the result fails exactly when the pipeline's does, and wraps its value as a mesh |
| Artifacts.Recognized | src/artifact.rs:48-52 | an element is in the set exactly when its name is a key of the header |
| Artifacts.RecognizedCases | src/artifact.rs:48-52 | the set is one of four shapes, of sizes 2, 1, 1 and 0, according to which of the two names the header has |
| Artifacts.RecognizedIsFilterMap | src/artifact.rs:48-52 | the set is `filter_map(Element::from)` of the header's keys, collected |
| Artifacts.New | src/artifact.rs:45-98 | a lone vertex element gives a point cloud with room for twice its vertices; both elements give a wireframe with room for four times each; a lone face element panics at the unwrap; nothing recognised gives nothing; a mesh is never made; counts start at zero |
| Artifacts.NewIgnoresUnrecognised | src/artifact.rs:48-52 | adding an element name `from` does not recognise never changes what `new` gives |
| Artifacts.NewHoldsWhatIsWritten | src/artifact.rs:45-157 | for the counts the header announces, writing into what `new` allocated succeeds for a point cloud always and for a wireframe exactly when every face is a triangle |
| Artifacts.WriteBufferIsMeshWrite | src/artifact.rs:141-155 | the artifact's write of a mesh succeeds exactly when the mesh pipeline's `write_buffer` does, with the same result |
| Artifacts.WriteBufferIsWireframeWrite | src/artifact.rs:126-140 | with both elements present, the artifact's write of a wireframe is the wireframe pipeline's `write_buffer` |
| Loader.KeyOf | src/loader.rs:56-67 | a name that does not match gives no key; otherwise the key is the artifact the match captured, with no instance |
| Loader.StoreStep | src/loader.rs:104-111 | only the key's entry changes and stays present; the allocator is untouched; `Add(key)` is sent exactly when nothing panicked, and it is the only event sent |
| Loader.PlaceStep | src/loader.rs:71-111 | only the key's entry changes; at most `Add(key)` is sent, only without a panic, and only with the entry present |
| Loader.LoadStep | src/loader.rs:37-111 | an unreadable header or an unmatched name changes nothing; otherwise only the artifact's entry changes, at most one `Add` is sent, only without a panic and with the entry present; one entry per artifact is preserved |
| Loader.LoadNeedsDevice | src/loader.rs:78-99 | an entry that is missing after the resize check stays missing, silently, without a device or when `new` recognises nothing |
| Loader.LoadLoneFacePanics | src/loader.rs:92 | allocating for a header whose only recognised element is face panics with nothing changed |
| Loader.LoadStoresCounts | src/loader.rs:104-111 | when `Add` is sent, exactly one is, the entry's count is the header's count its kind reads, and its vertex buffer begins with the file's vertex records |
| Loader.LoadSharesEntry | src/loader.rs:64-67 | loading two files of one artifact, whatever their instance numbers, leaves one entry for it |
| Loader.Load | src/loader.rs:37-111 | the table after, and the panic, are exactly those of `LoadStep` on the table before; the table stays valid |
| Loader.Store | src/loader.rs:104-111 | the table after, and the panic, are exactly those of `StoreStep` on the table before |
| Keys.LastComponent | src/injector/sequence.rs:48 | `file_name()` of a path string: a suffix without a separator, preceded by a separator unless it is the whole string |
| Keys.LastComponentAfterSeparator | src/injector/sequence.rs:48 | whatever comes before the last separator, the final component is exactly the text after it |
| Keys.FileNameOfFullPath | src/inject/playback.rs:27-28 | for a name without a separator, the final component of the full path `to_str()` gives is the path's `file_name()` |
| PlyNames.DigitRunEnd | src/main.rs:66 | greedy `[0-9]+` from a position consumes exactly the digit run there |
| PlyNames.LineEnd | src/main.rs:66 | greedy `.+` can reach exactly up to the next newline, or the end |
| PlyNames.LastPly | src/main.rs:66 | backtracking from greedy `.+` stops at the last `.ply` within reach, and at none when there is none |
| PlyNames.MatchAt | src/main.rs:66 | a match attempt at a position succeeds exactly when the pattern matches there, with the whole digit run and the longest artifact group |
| PlyNames.Search | src/main.rs:66 | the search reports the first position where an attempt succeeds, and none when no attempt does |
| PlyNames.Captures | src/main.rs:66 | `PLY_RE.captures` finds nothing exactly when the pattern matches nowhere; otherwise its two groups are those of a match |
| PlyNames.CapturesLeftmostLongest | src/main.rs:66 | the reported match starts leftmost, and its artifact group is the longest at that start |
| PlyNames.CanonicalName | src/injector/sequence.rs:17 | the name is the digits, a dot, the artifact name and `.ply`, each part at its place |
| PlyNames.CapturesCanonical | src/injector/sequence.rs:17 | matching a canonical name gives back exactly its digits and its artifact, whatever the artifact holds (dots and `.ply` included) |
| PlyNames.StrictImpliesLoose | src/inject/playback.rs:19-28 | any full path whose file name the strict pattern matches passes the producers' loose filter |
| PlyNames.LooseShift | src/inject/playback.rs:19-28 | a loose match in the file name is a loose match of the full path |
| PlyNames.DigitCharOfValue | src/sequence/replace.rs:127 | a digit's value, below ten, is written as that same digit, so digits and values correspond one to one |
| PlyNames.ParseU32 | src/sequence/replace.rs:127 | `parse::<u32>()` succeeds exactly on an optional `+` and one or more digits whose value is below 2^32, and gives that value |
| PlyNames.DigitChar | src/sequence/replace.rs:127 | the digit written for a value below ten reads back as that value |
| PlyNames.Decimal | src/sequence/replace.rs:127 | the decimal rendering of a number is a non-empty run of digits |
| PlyNames.DecimalValueOfDecimal | src/sequence/replace.rs:127 | the decimal rendering of n has value n |
| PlyNames.ParseDecimal | src/sequence/replace.rs:127 | parsing the decimal rendering of a 32-bit value gives the value back |
| Listing.LexLeTotal | src/inject/playback.rs:34 | any two names are ordered one way or the other |
| Listing.LexLeReflexive | src/inject/playback.rs:34 | every name is ordered before itself |
| Listing.LexLeAntisymmetric | src/inject/playback.rs:34 | names ordered both ways are equal |
| Listing.LexLeTransitive | src/inject/playback.rs:34 | the order is transitive |
| Listing.Insert | src/inject/playback.rs:34 | inserting into a sorted list keeps it sorted and adds exactly that name |
| Listing.Sort | src/inject/playback.rs:34 | `.sorted()` gives the names in ascending order, a permutation of the input |
| Listing.SortedHeadsAgree | src/inject/playback.rs:34 | two sorted orderings of the same names start with the same name |
| Listing.SortedUnique | src/inject/playback.rs:34 | two sorted orderings of the same names are the same sequence, so `.sorted()` is fully determined |
| Listing.Filter | src/inject/playback.rs:25-33 | a name is kept exactly when it is listed and the filter accepts its full path; nothing is added |
| Listing.SortedPass | src/inject/playback.rs:23-35 | one pass is the accepted names of the listing, exactly, in ascending order |
| Injectors.Then | src/inject/playback.rs:21-51 | prefixing offers to a trace keeps its state, status and waits |
| Injectors.ThenThen | src/inject/playback.rs:21-51 | two prefixes in turn are one prefix of their concatenation |
| Injectors.AcceptedAppend | src/inject/playback.rs:36-38 | the accepted offers of two traces in sequence add up |
| Injectors.PathsOf | src/inject/playback.rs:36 | the paths of a trace, one per offer, in order |
| Injectors.PathsOfAppend | src/inject/playback.rs:36 | the paths of two traces in sequence are concatenated |
| Injectors.ThenEnds | src/inject/playback.rs:40-49 | a trace's shape (one wait per accepted offer, the exit during wait `exitAt` after an accepted offer) survives prefixing offers whose waits were counted |
| Injectors.SortedPaths | src/inject/playback.rs:23-35 | a pass offers exactly the directory's listed entries whose full path the loose filter accepts, in ascending order of name |
| Injectors.Passes | src/inject/playback.rs:21-23 | each listing read gives its own sorted pass |
| InjectPlayback.PassEnds | src/inject/playback.rs:35-50 | within a pass, waits are counted once per accepted offer, and when the exit signal ends the pass it does so during wait `exitAt`, right after an offer `add` accepted |
| InjectPlayback.PassOffersInOrder | src/inject/playback.rs:35-38 | a pass offers a prefix of its sorted paths, in order, and all of them unless the exit signal cut it short; refused paths are skipped without a wait |
| InjectPlayback.RunEnds | src/inject/playback.rs:21-51 | the same of a whole run of passes, the waits counted across passes |
| InjectPlayback.RunOffersInOrder | src/inject/playback.rs:21-51 | a run offers the passes' paths one pass after another, each pass from its first path, all of them unless the exit signal cut it short |
| InjectPlayback.KeyedByAppend | src/inject/playback.rs:36 | two traces keyed by the path's key stay so in sequence |
| InjectPlayback.PassStateless | src/inject/playback.rs:36 | a pass fed to an injector whose `add` keeps no state leaves that state as it was, and each offer gets the key of its path |
| InjectPlayback.RunStateless | src/inject/playback.rs:21-51 | the same of a whole run |
| InjectPlayback.Run | src/inject/playback.rs:10-52 | the offers, how the loop stopped, and the injector's state after are those of `RunFrom` over the sorted passes of the listings read |
| InjectPlayback.Pass | src/inject/playback.rs:35-50 | the loop over one pass gives exactly `PassFrom` |
| InjectorPlayback.AddsOf | src/injector/playback.rs:37-45 | one `Add` event per accepted offer |
| InjectorPlayback.AddsOfAppend | src/injector/playback.rs:37-45 | the events of two traces in sequence are concatenated |
| InjectorPlayback.NotifyingStep | src/injector/playback.rs:37-45 | beside calling `add`, a notifying call appends `Add(key)` exactly for the key `add` returned |
| InjectorPlayback.PassAsBare | src/injector/playback.rs:24-57 | announcing keys changes nothing else: a pass makes the offers, waits and stop of the bare walk and leaves the injector the same |
| InjectorPlayback.PassSendsAdds | src/injector/playback.rs:37-45 | a pass sends one `Add(key)` per accepted offer, in the order of the offers, before that offer's wait |
| InjectorPlayback.RunAsBare | src/injector/playback.rs:11-59 | the same of a whole run |
| InjectorPlayback.RunSendsAdds | src/injector/playback.rs:11-59 | the same of a whole run |
| InjectorPlayback.Run | src/injector/playback.rs:11-59 | the offers, how the loop stopped, the injector's state and the events sent are those of the notifying `RunFrom` over the sorted passes |
| InjectorPlayback.Pass | src/injector/playback.rs:36-57 | the loop over one pass gives exactly the notifying `PassFrom` |
| InjectorSequence.KeyOf | src/injector/sequence.rs:46-66 | a name that does not match gives no key; otherwise the key is the artifact group, with no instance |
| InjectorSequence.KeyOfCanonical | src/injector/sequence.rs:57-60 | every frame of an artifact stands for the same key |
| InjectorSequence.RemoveStep | src/injector/sequence.rs:68-88 | returns the name's key; a name that does not match changes nothing; otherwise exactly that key's entry is gone and every other entry, the events and the allocator are unchanged |
| InjectorSequence.RemoveIdempotent | src/injector/sequence.rs:84 | a second `remove` of the same path changes nothing more |
| InjectorSequence.RemoveKeepsOneEntryPerArtifact | src/injector/sequence.rs:84 | `remove` keeps a table with at most one entry per artifact so |
| InjectorSequence.RunLeavesTable | src/injector/sequence.rs:46-66 | a playback run fed to a `Sequence` leaves its table as it was, and each offer gets the key its name stands for |
| InjectorSequence.Sequence.constructor | src/injector/sequence.rs:28-37 | a fresh, empty table |
| InjectorSequence.Sequence.Add | src/injector/sequence.rs:46-66 | the key returned is `KeyOf` the file name; the table is not touched |
| InjectorSequence.Sequence.Remove | src/injector/sequence.rs:68-88 | the table after and the key returned are those of `RemoveStep` |
| Inotify.Notify | src/injector/inotify.rs:66-79 | a key returned by the call is sent to the window thread; no key sends nothing |
| Inotify.Dispatch | src/injector/inotify.rs:55-83 | the sentinel ends the loop before anything else, an event without a name panics, and these are the only stops; `CLOSE_WRITE` calls `add` and `DELETE` calls `remove` on the named path, sending the key it returns; any other mask calls neither and changes nothing |
| Inotify.DispatchAppend | src/injector/inotify.rs:55-84 | events are handled in order: what follows a batch prefix starts where the prefix left off, unless the prefix stopped the loop |
| Inotify.DispatchAllExtends | src/injector/inotify.rs:55-84 | events already sent stay sent |
| Inotify.RunIsFlat | src/injector/inotify.rs:53-85 | where one batch ends and the next begins makes no difference |
| Inotify.SentinelEndsTheLoop | src/injector/inotify.rs:57-59 | once the sentinel arrives nothing after it is handled, and the loop exits in the state reached |
| Inotify.Run | src/injector/inotify.rs:51-86 | the injector's state, the events sent and why the loop stopped are those of `RunBatches` over the batches read |
| Inotify.Batch | src/injector/inotify.rs:55-84 | the loop over one batch gives exactly `DispatchAll` |
| Tables.Evict | src/sequence/replace.rs:63-73 | the entry under the key is dropped exactly when it exists and `needs_resize` says so; nothing else changes |
| Tables.Allocate | src/sequence/replace.rs:75-95 | without a device nothing is made; a panicking `Artifact::new` panics, one that recognises nothing makes nothing; otherwise its artifact is inserted under the key with the next two buffer handles taken |
| Tables.Ready | src/loader.rs:82-104 | an entry already present is used as it is; any entry made is inserted under the key with the other entries and the events unchanged |
| Tables.Inserted | src/loader.rs:92-101 | panics exactly when `Artifact::new` did; an artifact made is inserted under the key, other entries and events unchanged |
| Tables.OneEntryPerArtifactUnique | src/loader.rs:64-67 | in a table whose keys carry no instance, two keys of one artifact are the same key |
| Tables.Table.constructor | src/injector/sequence.rs:32 | a new table is empty, with nothing sent and no buffer allocated |
| Tables.Table.DropIfTooSmall | src/sequence/replace.rs:66-73 | the table after is `Evict` of the table before, everything else unchanged |
| Tables.Table.Drop | src/injector/sequence.rs:84 | `remove(&key)`: the key's entry is gone, everything else unchanged |
| Tables.Table.Put | src/loader.rs:104-107 | the key's entry is replaced, everything else unchanged |
| Tables.Table.Send | src/loader.rs:109-111 | the event is appended to those sent, everything else unchanged |
| Tables.Table.Create | src/sequence/replace.rs:75-95 | the table after, and whether an entry was made, are exactly those of `Allocate`; a panic leaves the table unchanged |
| Tables.Table.Insert | src/sequence/replace.rs:85-94 | the table after, and whether an entry was made, are exactly those of `Inserted` |
| SequenceReplace.Refill | src/sequence/replace.rs:98-101 | a successful refill keeps the kind and the buffer handles and takes the counts `update_count` gives |
| SequenceReplace.FinishStep | src/sequence/replace.rs:97-107 | succeeds exactly when the queue is ready and the refill succeeds, and then only the key's entry changes, to its refill, and `Add(key)` is sent; a panic leaves the table as it was |
| SequenceReplace.PlaceStep | src/sequence/replace.rs:63-107 | only the key's entry changes; at most `Add(key)` is sent, only without a panic and with the entry present |
| SequenceReplace.InjectStep | src/sequence/replace.rs:39-108 | an unreadable header or an empty vertex element changes nothing, a missing vertex element panics; otherwise only the key's entry changes and at most one `Add(key)` is sent, only without a panic and with the entry present |
| SequenceReplace.InjectQuietKeepsOrDrops | src/sequence/replace.rs:71-92 | a call that sends nothing and does not panic leaves the table as it was, or with only the key's entry dropped by the resize check |
| SequenceReplace.InjectRefillsKept | src/sequence/replace.rs:66-101 | an entry that survives the resize check keeps its buffers and becomes its refill |
| SequenceReplace.InjectNeedsDevice | src/sequence/replace.rs:75-93 | an entry missing after the resize check stays missing, silently, without a device or when `new` recognises nothing |
| SequenceReplace.InjectCreatesMissing | src/sequence/replace.rs:75-101 | an entry that comes back after being missing is the refill of what `new` made on the ready device, under the next two handles |
| SequenceReplace.InjectStoresPointCloud | src/sequence/replace.rs:39-107 | a new point cloud whose rows match the announced vertex count is stored and announced once device and queue are ready |
| SequenceReplace.KeyOf | src/sequence/replace.rs:116-129 | a name that does not match gives no key; otherwise the key is the instance group parsed as `u32` (none when that fails) and the artifact group |
| SequenceReplace.AddStep | src/sequence/replace.rs:116-134 | a name that does not match changes nothing and returns nothing; otherwise the file is injected under the name's key, which is returned unless the injection panicked |
| SequenceReplace.AddReturnsKeyOnMatch | src/sequence/replace.rs:126-133 | `add` returns the key the canonical name spells whenever nothing panics, even when the injection bailed out early |
| SequenceReplace.RemoveStep | src/sequence/replace.rs:136-158 | a name that does not match changes nothing; otherwise the key without an instance is dropped, `Remove(key)` is sent and the key returned |
| SequenceReplace.RemoveIdempotent | src/sequence/replace.rs:152 | removing twice leaves the entries as removing once |
| SequenceReplace.RemoveAfterAddLeavesEntry | src/sequence/replace.rs:126-152 | as written, the file `n.a.ply` just added stays in the table after it is removed |
| SequenceReplace.RemoveKeepsInstances | src/sequence/replace.rs:146-152 | `remove` never drops a key that carries an instance |
| SequenceReplace.AddAccumulatesInstances | src/sequence/replace.rs:126-129 | as written, adding two instances of one artifact leaves two entries for it |
| SequenceReplace.AddStoresOneVertex | src/sequence/replace.rs:116-134 | adding `n.a.ply`, a one-vertex file, stores it under `Key(Some(n), "a")` and changes no other entry |
| SequenceReplace.NamesOneA | src/sequence/replace.rs:126-129 | the name of instance n of `a` gives the key `Key(Some(n), "a")` |
| SequenceReplace.AddCorrectedStep | src/sequence/replace.rs:116-134 | as intended: the entry is keyed by the artifact alone, as `remove` looks it up, so one entry per artifact is kept |
| SequenceReplace.RemoveAfterAddCorrected | src/sequence/replace.rs:136-158 | with the corrected `add`, after removing the file just added no entry of its artifact remains |
| SequenceReplace.Replace.constructor | src/sequence/replace.rs:28-37 | the sequencer holds the shared table it is given |
| SequenceReplace.Replace.Inject | src/sequence/replace.rs:39-108 | the table after, and the panic, are exactly those of `InjectStep` on the table before |
| SequenceReplace.Replace.Place | src/sequence/replace.rs:63-107 | the table after, and the panic, are exactly those of `PlaceStep` |
| SequenceReplace.Replace.Finish | src/sequence/replace.rs:97-107 | the table after, and the panic, are exactly those of `FinishStep` |
| SequenceReplace.Replace.Add | src/sequence/replace.rs:116-134 | the table after, the panic and the key returned are exactly those of `AddStep` |
| SequenceReplace.Replace.AddCorrected | src/sequence/replace.rs:116-134 | the table after, the panic and the key returned are exactly those of `AddCorrectedStep` |
| SequenceReplace.Replace.Remove | src/sequence/replace.rs:136-158 | the table after and the key returned are exactly those of `RemoveStep` |
| Playback.Evicted | src/playback.rs:40-47 | the entry under the artifact's name is dropped exactly when `needs_resize` says so; nothing else changes and well-formed entries stay well formed |
| Playback.UploadStep | src/playback.rs:33-85 | an unreadable header panics with the table unchanged; otherwise only the artifact's entry changes, entries stay well formed, and either no handle or the next two are taken |
| Playback.UploadKeepsBuffers | src/playback.rs:40-49 | an entry big enough for the header keeps its buffers and no new handle is taken |
| Playback.UploadNeedsDevice | src/playback.rs:49-57 | without a device a missing entry stays missing and the call returns quietly after the resize check |
| Playback.UploadWritesVertices | src/playback.rs:70-84 | once the queue is ready and nothing panicked, the entry's vertex buffer begins with the file's vertices |
| Playback.Ready | src/playback.rs:49-68 | an entry already present is used as it is; one made leaves the other entries alone and takes the next two handles |
| Playback.Allocated | src/playback.rs:59-67 | panics exactly when `Artifact::new` does; a recognised artifact is inserted under the name with the next two handles; an unknown one leaves the table as it was |
| Playback.WriteStep | src/playback.rs:70-84 | without a queue or an entry nothing changes; otherwise the entry keeps its buffers and draw counts and its vertex buffer holds the file's vertices |
| Playback.UploadLeavesCountsZero | src/playback.rs:33-85 | `upload` never calls `update_count`: a table whose draw counts are all zero keeps them zero |
| Playback.ReadyLeavesCountsZero | src/playback.rs:59-67 | entries made by `Artifact::new` start with zero draw counts |
| Playback.UploadSkipsUnknownKind | src/playback.rs:59-66 | a header of unknown kind leaves the table unchanged, without a panic |
| Playback.UploadAllocatesPointCloud | src/playback.rs:33-85 | a vertex-only file for a new artifact, on a ready device and queue, gives a point-cloud entry whose vertex buffer is the next handle |
| Playback.PassPaths | src/playback.rs:103-114 | every path kept matches `PLY_RE`, and every path of the listing that matches is kept |
| Playback.FullPaths | src/playback.rs:107 | each entry's full path is its directory joined with its name, in listing order |
| Playback.Captured | src/playback.rs:116-121 | each kept path is paired with the frame digits and artifact name its captures give |
| Playback.Passes | src/playback.rs:99-114 | each pass is the captured, sorted list of one listing of the assets directory |
| Playback.UploadWith | src/playback.rs:127 | the step `run` calls on a well-formed table is `upload` |
| Playback.PathStep | src/playback.rs:116-147 | a frame past `u32` panics; the planes are skipped; any other artifact is uploaded and refreshed, and the loop waits exactly when the frame changed, stopping when the exit signal arrives during that wait |
| Playback.PassFromUnfolds | src/playback.rs:103-148 | a pass is its first path's step followed, unless that step stopped, by the rest of the pass from where it left off |
| Playback.RunFromUnfolds | src/playback.rs:99-149 | the loop is its first pass, then, when that pass ran out, the next passes on the table it left |
| Playback.ThenThen | src/playback.rs:99-149 | adding entries in front of a trace twice is adding both at once |
| Playback.WaitsAppend | src/playback.rs:134-145 | the waits of two traces one after the other add up |
| Playback.ThenEnds | src/playback.rs:123-145 | a trace without the planes in front of a well-shaped trace is well shaped |
| Playback.PassShape | src/playback.rs:100-148 | a pass never shows the planes, waits exactly when the frame changes from the last one shown, counts one wait per change, and exits only during wait number `exitAt`, as its last entry |
| Playback.RunShape | src/playback.rs:99-149 | over any number of passes the trace never shows the planes and exits only during wait number `exitAt`, as its last entry |
| Playback.RunStartsAtFrameZero | src/playback.rs:99-147 | each pass starts from frame 0, so the first entry waited exactly when its frame is not 0 |
| Playback.Playback.constructor | src/playback.rs:26-31 | a new table is empty |
| Playback.Playback.Upload | src/playback.rs:33-85 | the table after, and the panic, are exactly those of `UploadStep` |
| Playback.Playback.DropIfTooSmall | src/playback.rs:40-47 | the table after is `Evicted` of the table before |
| Playback.Playback.Create | src/playback.rs:59-67 | the table after, and whether an entry was made, are exactly those of `Allocated`; a panic leaves it unchanged |
| Playback.Playback.Write | src/playback.rs:70-84 | the table after, and the panic, are exactly those of `WriteStep` |
| Playback.Run | src/playback.rs:88-150 | the trace, the table after and how it stopped are exactly those of `RunFrom` over the passes of the listings |
| Playback.Pass | src/playback.rs:100-148 | the trace, table and waits after one pass are exactly those of `PassFrom` from frame 0 |
| Playback.Visit | src/playback.rs:116-147 | the result for one path is exactly that of `PathStep` |
| Window.Fill | src/window.rs:221-238 | after the fill loop the three caches hold the same keys and cover every artifact; a key that already had a pipeline keeps all three entries, and a new key gets the pipeline and uniform its artifact's kind calls for, with the bind group on that uniform |
| Window.FillIdempotent | src/window.rs:221-238 | filling the caches twice over the same artifacts is filling them once |
| Window.FillFromEmptyMatchesKinds | src/window.rs:221-238 | caches filled from the empty ones `new` makes hold exactly the artifact keys, each with the pipeline and uniform of its artifact's kind |
| Window.FillKeysCovered | src/window.rs:222 | keys that already have a pipeline get nothing new |
| Window.FillKeysStep | src/window.rs:221-238 | visiting one more key adds that key's three entries, only when it had no pipeline |
| Window.DrawsOfStep | src/window.rs:280-307 | drawing one more key adds exactly its draw, with its cached pipeline and bind group |
| Window.Redrawn | src/window.rs:210-322 | without a device nothing changes and nothing is drawn; otherwise the caches are filled, a lost surface ends the frame, a missing queue panics, and a presented frame draws every artifact, each with its cached pipeline and bind group and its own draw call |
| Window.RedrawReusesCaches | src/window.rs:222 | a second `redraw` over the same artifacts leaves the caches the first one built unchanged |
| Window.WindowState.constructor | src/window.rs:181-183 | the three caches start empty and aligned |
| Window.WindowState.Redraw | src/window.rs:210-322 | the caches after, and how the frame ends, are exactly those of `Redrawn` |
| Window.WindowState.FillCaches | src/window.rs:221-238 | the caches after the loop are those `FillKeys` gives for every artifact key |
| Window.WindowState.Visit | src/window.rs:222-237 | a key without a pipeline gets its three entries; a key with one is left alone |
| Window.WindowState.DrawAll | src/window.rs:280-308 | the draws are exactly `DrawsOf` for every artifact key, none missing and none extra |

## Left out

- wgpu itself is not modelled: device and queue creation, surfaces, shaders, pipeline layouts and render passes. A buffer is an identity, a size and its words. A write at offset 0 overwrites a prefix, and a write past the end is a panic. Pipelines and uniforms are known only by the artifact kind they were made for. `queue.submit` and `present` have no modelled effect.
- The device's allocator is a `nextId` counter in each table. Each new artifact takes the next two handles.
- `DEVICE` and `QUEUE` are `OnceLock`s set once by the render thread. The model passes their readiness in as a `GpuState` on each call, so any race between setting the two is not modelled.
- The ply_rs header and payload parser is outside the model. A file is its parsed header, or none when the header does not parse, together with its vertex and face property rows. Which file a path holds is a function given as a parameter. `File::open` failures are not modelled.
- Reading a payload is not modelled: `read_payload_for_element(..).unwrap()` in `artifact.rs`, `pipeline/point_cloud.rs`, `pipeline/wireframe.rs` and `pipeline/mesh.rs`. A file's rows are taken as already read, so that read never fails. The number of rows is not tied to the count the header announces; the lemmas about buffers that fit assume it instead.
- Paths are strings, so `path.file_name().unwrap().to_str().unwrap()` (in `sequence/replace.rs`, `loader.rs` and `injector/sequence.rs`) and `path.to_str().unwrap()` (in `playback.rs`) cannot fail. A missing file name and a name that is not UTF-8 are not modelled.
- `buffer_too_small`'s definition is not part of this model, so it is the uninterpreted `TooSmall` parameter.
- `f32` coordinates are kept as bit patterns. No arithmetic is done on them, and colours and `ArtifactUniform` values are not modelled.
- Locks, threads and timers are not modelled: `Arc<Mutex<..>>`, tokio intervals, `select!`, the exit `watch` channel, `spawn` and `block_in_place`. Each lock is held for a whole step, so a step is atomic. A wait is one entry of a trace. The exit signal arrives during wait number `exitAt`, a parameter.
- The producers' endless loops run over a finite sequence of directory listings or event batches, given as parameters, and stop when those run out.
- `read_dir` order, and any I/O error from it, are not modelled. `.sorted()` on the paths of one directory is modelled as lexicographic order on their file names.
- The inotify watcher's setup is not modelled: `Inotify::init`, adding the watch, and creating and deleting the sentinel file (`injector/inotify.rs` lines 29-48). An event without a name ends the loop as `Panicked(UnnamedEvent)`.
- `loader::run`, the loader's `select!` loop, is not modelled; its per-file step `load` is.
- `main.rs` is not part of this model: the command line, logger and runtime wiring, and `parse_milliseconds`. Only its `PLY_RE` pattern is used.
- Winit event handling, the camera, its controller and projection, the camera buffer and `resize` are user interface and floating point, and are not modelled.
- `key.rs`'s `Display` and the `mod.rs` files are formatting and declarations. `Key`, `Injector` and `Sequencer` appear as a datatype and as function types.
- `HashMap` iteration order is not modelled: the fill and draw loops of `redraw` visit the keys in an arbitrary order, and the draws are a map from key to draw.
- `Sequence::add` does not inject: `injector/sequence.rs` lines 63-64 are commented out. `Sequence::remove` sends no event (line 86). Both are modelled as written.
- Artifacts.Artifact.WriteBuffer: a panic while writing the face records is modelled as leaving the entry unchanged. The source has already written the vertex buffer by then, and that write is not kept.
- Artifacts.Artifact.Render: a wireframe or a mesh is drawn with `RenderCorrected`, which covers every index written. `window.rs` calls `render` with a signature from another revision, whose draw count is not part of this model. The `render` functions of `pipeline/wireframe.rs` and `pipeline/mesh.rs` draw `0..num_lines` and `0..num_facets`, which the Findings show draw only part of the indices. So `Window.Redrawn` states the corrected draws, not the draws those `render` functions would issue.
- WireframePipeline.Wireframe.UpdateCount: `count as u32 * 3` is modelled as wrapping modulo 2^32, which is what a release build does. A debug build panics on that overflow instead.
- SequenceReplace.FinishStep: a panic inside `update_count`, `read_ply` or `write_buffer` is modelled as leaving the entry as it was, so the refill is atomic. The source can leave the entry partly updated, under a lock the panic poisons.
- Mutex poisoning is not modelled: a panic ends the step, and later steps see the table as the model leaves it.

## Findings

| source | as written | input that shows it | evidently intended | confidence | as-written member | corrected member |
|---|---|---|---|---|---|---|
| src/pipeline/wireframe.rs:41 | `Wireframe::new` sets `num_lines` to half the face count, but `update_count` (lines 105-112) sets it to three times the face count | a header with 3 vertices and 2 faces: `new` gives 1 line, and `update_count` on the same header gives 6 | `new` sets the count `update_count` would, so a fresh entry already matches its header | not executed | WireframePipeline.NewDisagreesWithUpdate | WireframePipeline.UpdateAfterNewCorrected |
| src/pipeline/wireframe.rs:142-146 | `render` draws indices `0..num_lines`, while each line takes two indices in the edge records `write_buffer` fills | any header with f > 0 faces: after `update_count` the draw ends at 3f of the 6f indices written | the draw covers every index written, `0..2 * num_lines` | not executed | WireframePipeline.RenderDrawsHalfTheEdges | WireframePipeline.RenderCorrectedDrawsEveryEdge |
| src/pipeline/mesh.rs:134-138 | `render` draws indices `0..num_facets`, while each facet takes three indices in the triangle records `write_buffer` fills | any header with f > 0 faces: the draw ends at f of the 3f indices written | the draw covers every index written, `0..3 * num_facets` | not executed | MeshPipeline.RenderDrawsAThird | MeshPipeline.RenderCorrectedDrawsEveryFacet |
| src/sequence/replace.rs:126-152 | `add` keys the entry with `instance: Some(n)`, but `remove` looks up `instance: None`; `Key` equality covers both fields | add `1.a.ply`, a one-vertex file, on a ready GPU, then remove the same path: the entry `Key(Some(1), "a")` stays. Adding `2.a.ply` too leaves two entries for `a` | one entry per artifact, found again by `remove`, as `loader.rs` does with `instance: None` | not executed | SequenceReplace.RemoveAfterAddLeavesEntry | SequenceReplace.RemoveAfterAddCorrected |
