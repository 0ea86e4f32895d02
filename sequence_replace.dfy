/**
 * `sequence::Replace`: the sequencer that owns the shared table of artifacts keyed by `Key`,
 * injects a file into it, and tells the window thread what changed.
 */
module SequenceReplace {
  import opened Wrappers
  import opened PlyTypes
  import opened Gpu
  import opened Keys
  import opened Artifacts
  import Panics
  import Elements
  import PlyNames
  import opened Tables

  /** The header announces a vertex element with at least one vertex. */
  predicate Proceeds(file: PlyFile)
  {
    file.header.Some? && "vertex" in file.header.value && file.header.value["vertex"] != 0
  }

  /** The entry under key survives the resize check. */
  predicate Kept(s: Shared, key: Key, file: PlyFile, tooSmall: TooSmall)
  {
    file.header.Some? && key in s.artifacts && !s.artifacts[key].NeedsResize(file.header.value, tooSmall)
  }

  /** `update_count`, then `read_ply` and `write_buffer` on the entry. */
  function Refill(a: Artifact, header: Header, file: PlyFile): (r: Result<Artifact, Panics.Reason>)
    requires a.Valid()
    ensures r.Ok? ==> r.value.Valid() && r.value.SameBuffers(a)
    ensures r.Ok? ==> a.UpdateCount(header).Ok? && r.value.Counts() == a.UpdateCount(header).value.Counts()
  {
    match a.UpdateCount(header)
    case Panic(why) => Panic(why)
    case Ok(counted) => counted.ReadAndWrite(header, file)
  }

  /** The queue is unwrapped, the entry refilled, and `Add(key)` sent. */
  function FinishStep(s: Shared, key: Key, header: Header, file: PlyFile, gpu: GpuState): (o: Outcome<Shared>)
    requires key in s.artifacts && Tables.AllValid(s.artifacts)
    ensures o.panic.None? <==> gpu.queue && Refill(s.artifacts[key], header, file).Ok?
    ensures o.panic.None? ==> o.after == Shared(s.artifacts[key := Refill(s.artifacts[key], header, file).value],
                                                     s.events + [Add(key)], s.nextId)
    ensures o.panic.Some? ==> o.after == s
    ensures Tables.AllValid(o.after.artifacts)
  {
    if !gpu.queue then Outcome(s, Some(Panics.QueueNotSet))
    else
      match Refill(s.artifacts[key], header, file)
      case Panic(why) => Outcome(s, Some(why))
      case Ok(a) => Outcome(Shared(s.artifacts[key := a], s.events + [Add(key)], s.nextId), None)
  }

  /** The entry under key after the resize check, created when it is missing, then refilled. */
  function PlaceStep(s: Shared, key: Key, header: Header, file: PlyFile, gpu: GpuState, tooSmall: TooSmall): (o: Outcome<Shared>)
    requires Tables.AllValid(s.artifacts)
    ensures Tables.AllValid(o.after.artifacts)
    ensures Tables.AgreeElsewhere(o.after.artifacts, s.artifacts, key)
    ensures o.after.events == s.events || (o.after.events == s.events + [Add(key)] && o.panic.None?)
    ensures o.after.events != s.events ==> key in o.after.artifacts
  {
    var evicted := s.(artifacts := Tables.Evict(s.artifacts, key, header, tooSmall));
    match Tables.Ready(evicted, key, header, gpu)
    case Panic(why) => Outcome(evicted, Some(why))
    case Ok(None) => Outcome(evicted, None)
    case Ok(Some(t)) => FinishStep(t, key, header, file, gpu)
  }

  /**
   * `Replace::inject` on the file read from the path: an unreadable header or an empty vertex
   * element changes nothing, a missing vertex element panics, and otherwise only the entry
   * under key changes and at most one `Add(key)` is sent.
   */
  function InjectStep(s: Shared, key: Key, file: PlyFile, gpu: GpuState, tooSmall: TooSmall): (o: Outcome<Shared>)
    requires Tables.AllValid(s.artifacts)
    ensures Tables.AllValid(o.after.artifacts)
    ensures file.header.None? ==> o == Outcome(s, None)
    ensures file.header.Some? && "vertex" !in file.header.value ==> o == Outcome(s, Some(Panics.MissingElement("vertex")))
    ensures file.header.Some? && "vertex" in file.header.value && file.header.value["vertex"] == 0 ==> o == Outcome(s, None)
    ensures Tables.AgreeElsewhere(o.after.artifacts, s.artifacts, key)
    ensures o.after.events == s.events || (o.after.events == s.events + [Add(key)] && o.panic.None?)
    ensures o.after.events != s.events ==> key in o.after.artifacts
  {
    match file.header
    case None => Outcome(s, None)
    case Some(header) =>
      if Elements.Name(Elements.Vertex) !in header then Outcome(s, Some(Panics.MissingElement("vertex")))
      else if header[Elements.Name(Elements.Vertex)] == 0 then Outcome(s, None)
      else PlaceStep(s, key, header, file, gpu, tooSmall)
  }

  /** A call that sends nothing and does not panic leaves the entry as it was, or dropped by the resize check. */
  lemma InjectQuietKeepsOrDrops(s: Shared, key: Key, file: PlyFile, gpu: GpuState, tooSmall: TooSmall)
    requires Tables.AllValid(s.artifacts)
    ensures var o := InjectStep(s, key, file, gpu, tooSmall);
      o.panic.None? && o.after.events == s.events ==>
        o.after.artifacts == s.artifacts || o.after.artifacts == s.artifacts - {key}
  {
  }

  /** An entry that survives the resize check keeps its buffers and takes the counts and contents of the file. */
  lemma InjectRefillsKept(s: Shared, key: Key, file: PlyFile, gpu: GpuState, tooSmall: TooSmall)
    requires Tables.AllValid(s.artifacts) && Proceeds(file) && Kept(s, key, file, tooSmall)
    ensures var o := InjectStep(s, key, file, gpu, tooSmall);
      o.after.events != s.events ==>
        o.after.artifacts[key] == Refill(s.artifacts[key], file.header.value, file).value
        && o.after.artifacts[key].SameBuffers(s.artifacts[key])
  {
  }

  /** An entry that is missing, or dropped by the resize check, stays out without a ready device or a recognised header. */
  lemma InjectNeedsDevice(s: Shared, key: Key, file: PlyFile, gpu: GpuState, tooSmall: TooSmall)
    requires Tables.AllValid(s.artifacts) && Proceeds(file) && !Kept(s, key, file, tooSmall)
    requires !gpu.device || New(file.header.value, s.nextId, s.nextId + 1) == Ok(None)
    ensures InjectStep(s, key, file, gpu, tooSmall) == Outcome(s.(artifacts := s.artifacts - {key}), None)
  {
    assert Tables.Evict(s.artifacts, key, file.header.value, tooSmall) == s.artifacts - {key};
  }

  /** An entry that comes back after being missing holds freshly allocated buffers, under the next two handles. */
  lemma InjectCreatesMissing(s: Shared, key: Key, file: PlyFile, gpu: GpuState, tooSmall: TooSmall)
    requires Tables.AllValid(s.artifacts) && Proceeds(file) && !Kept(s, key, file, tooSmall)
    ensures var o := InjectStep(s, key, file, gpu, tooSmall);
      var made := New(file.header.value, s.nextId, s.nextId + 1);
      o.after.events != s.events ==>
        gpu.device && made.Ok? && made.value.Some?
        && o.after.artifacts[key] == Refill(made.value.value, file.header.value, file).value
        && o.after.nextId == s.nextId + 2
  {
    var header := file.header.value;
    var evicted := s.(artifacts := Tables.Evict(s.artifacts, key, header, tooSmall));
    assert key !in evicted.artifacts;
    var o := InjectStep(s, key, file, gpu, tooSmall);
    assert o == PlaceStep(s, key, header, file, gpu, tooSmall);
    if o.after.events != s.events {
      var ready := Tables.Allocate(evicted, key, header, gpu);
      assert ready.Ok? && ready.value.Some?;
      assert o == FinishStep(ready.value.value, key, header, file, gpu);
    }
  }

  /**
   * A new point cloud whose rows match the vertex count the header announces is stored and
   * announced when the device and queue are ready.
   */
  lemma InjectStoresPointCloud(s: Shared, key: Key, file: PlyFile, tooSmall: TooSmall)
    requires Tables.AllValid(s.artifacts) && key !in s.artifacts
    requires file.header.Some? && Recognized(file.header.value) == {Elements.Vertex}
    requires file.header.value["vertex"] != 0 && |file.vertexRows| == file.header.value["vertex"]
    ensures var o := InjectStep(s, key, file, GpuState(true, true), tooSmall);
      o.panic.None? && key in o.after.artifacts && o.after.events == s.events + [Add(key)]
  {
    var header := file.header.value;
    assert Elements.Name(Elements.Vertex) == "vertex";
    var a := New(header, s.nextId, s.nextId + 1).value.value;
    var counted := a.UpdateCount(header).value;
    assert counted.PointCloud?;
    var staged := counted.pc.ReadPly(header, file);
    assert |staged.stageVertices| == header["vertex"];
    assert staged.WriteBuffer().Ok?;
  }

  /** The key `add` derives from a file name: the instance number when it fits a u32, and the artifact. */
  function KeyOf(name: string): (k: Option<Key>)
    ensures k.None? <==> PlyNames.Captures(name).None?
    ensures k.Some? ==> k.value == Key(PlyNames.ParseU32(PlyNames.Captures(name).value.0), PlyNames.Captures(name).value.1)
  {
    match PlyNames.Captures(name)
    case None => None
    case Some((instance, artifact)) => Some(Key(PlyNames.ParseU32(instance), artifact))
  }

  /** `Sequencer::add`: a name that does not match changes nothing; otherwise inject and return the key. */
  function AddStep(s: Shared, path: Path, file: PlyFile, gpu: GpuState, tooSmall: TooSmall): (r: (Outcome<Shared>, Option<Key>))
    requires Tables.AllValid(s.artifacts)
    ensures KeyOf(path.FileName()).None? ==> r == (Outcome(s, None), None)
    ensures KeyOf(path.FileName()).Some? ==> r.0 == InjectStep(s, KeyOf(path.FileName()).value, file, gpu, tooSmall)
    ensures KeyOf(path.FileName()).Some? && r.0.panic.None? ==> r.1 == KeyOf(path.FileName())
  {
    match KeyOf(path.FileName())
    case None => (Outcome(s, None), None)
    case Some(key) =>
      var o := InjectStep(s, key, file, gpu, tooSmall);
      (o, if o.panic.None? then Some(key) else None)
  }

  /** `add` returns the key spelled by the name whenever nothing panics, even when injection bails out early. */
  lemma AddReturnsKeyOnMatch(s: Shared, digits: string, artifact: string, dir: string, file: PlyFile, gpu: GpuState, tooSmall: TooSmall)
    requires Tables.AllValid(s.artifacts)
    requires |digits| > 0 && PlyNames.DigitsBetween(digits, 0, |digits|)
    requires |artifact| > 0 && PlyNames.NoNewlineBetween(artifact, 0, |artifact|)
    requires AddStep(s, Path(dir, PlyNames.CanonicalName(digits, artifact)), file, gpu, tooSmall).0.panic.None?
    ensures var r := AddStep(s, Path(dir, PlyNames.CanonicalName(digits, artifact)), file, gpu, tooSmall);
      r.1 == Some(Key(PlyNames.ParseU32(digits), artifact))
  {
    PlyNames.CapturesCanonical(digits, artifact);
  }

  /** `Sequencer::remove`: the key is built without an instance, its entry dropped, `Remove` sent. */
  function RemoveStep(s: Shared, path: Path): (r: (Shared, Option<Key>))
    ensures PlyNames.Captures(path.FileName()).None? ==> r == (s, None)
    ensures PlyNames.Captures(path.FileName()).Some? ==>
      var key := Key(None, PlyNames.Captures(path.FileName()).value.1);
      r == (Shared(s.artifacts - {key}, s.events + [Remove(key)], s.nextId), Some(key))
  {
    match PlyNames.Captures(path.FileName())
    case None => (s, None)
    case Some((_, artifact)) =>
      var key := Key(None, artifact);
      (Shared(s.artifacts - {key}, s.events + [Remove(key)], s.nextId), Some(key))
  }

  /** Removing twice leaves the table as removing once. */
  lemma RemoveIdempotent(s: Shared, path: Path)
    ensures RemoveStep(RemoveStep(s, path).0, path).0.artifacts == RemoveStep(s, path).0.artifacts
  {
  }

  /**
   * As written, `add` keys the entry by its instance number and `remove` by no instance, so
   * removing the file just added leaves its entry in the table.
   */
  lemma RemoveAfterAddLeavesEntry(s: Shared, dir: string, n: U32)
    requires Tables.AllValid(s.artifacts) && Key(Some(n), "a") !in s.artifacts
    ensures var path := Path(dir, PlyNames.CanonicalName(PlyNames.Decimal(n), "a"));
      var added := AddStep(s, path, OneVertex(), GpuState(true, true), NeverSmall);
      added.0.panic.None? && added.1 == Some(Key(Some(n), "a"))
      && Key(Some(n), "a") in RemoveStep(added.0.after, path).0.artifacts
  {
    var path := Path(dir, PlyNames.CanonicalName(PlyNames.Decimal(n), "a"));
    AddStoresOneVertex(s, dir, path.name, n);
    RemoveKeepsInstances(AddStep(s, path, OneVertex(), GpuState(true, true), NeverSmall).0.after, path, Key(Some(n), "a"));
  }

  /** `remove` only ever drops a key without an instance. */
  lemma RemoveKeepsInstances(s: Shared, path: Path, k: Key)
    requires k in s.artifacts && k.instance.Some?
    ensures k in RemoveStep(s, path).0.artifacts
  {
  }

  /** A file with one vertex and no payload, and a resize check that never fires. */
  function OneVertex(): (f: PlyFile)
    ensures f.header.Some? && Recognized(f.header.value) == {Elements.Vertex}
    ensures f.header.value["vertex"] == |f.vertexRows| == 1
  {
    assert Elements.Name(Elements.Face) == "face";
    PlyFile(Some(map["vertex" := 1]), [[]], [])
  }

  const NeverSmall: TooSmall := (_, _, _) => false

  /** The key `add` reads from the name of instance n of artifact `a`. */
  lemma NamesOneA(dir: string, name: string, n: U32)
    requires name == PlyNames.CanonicalName(PlyNames.Decimal(n), "a")
    ensures KeyOf(Path(dir, name).FileName()) == Some(Key(Some(n), "a"))
  {
    PlyNames.ParseDecimal(n);
    assert PlyNames.NoNewlineBetween("a", 0, 1);
    PlyNames.CapturesCanonical(PlyNames.Decimal(n), "a");
  }

  /** As written, adding two instances of one artifact leaves two entries for it. */
  lemma AddAccumulatesInstances(s: Shared, dir: string, n1: U32, n2: U32)
    requires Tables.AllValid(s.artifacts) && n1 != n2
    requires Key(Some(n1), "a") !in s.artifacts && Key(Some(n2), "a") !in s.artifacts
    ensures var gpu := GpuState(true, true);
      var first := AddStep(s, Path(dir, PlyNames.CanonicalName(PlyNames.Decimal(n1), "a")), OneVertex(), gpu, NeverSmall).0.after;
      var second := AddStep(first, Path(dir, PlyNames.CanonicalName(PlyNames.Decimal(n2), "a")), OneVertex(), gpu, NeverSmall).0.after;
      Key(Some(n1), "a") in second.artifacts && Key(Some(n2), "a") in second.artifacts
  {
    AddStoresOneVertex(s, dir, PlyNames.CanonicalName(PlyNames.Decimal(n1), "a"), n1);
    var first := AddStep(s, Path(dir, PlyNames.CanonicalName(PlyNames.Decimal(n1), "a")), OneVertex(), GpuState(true, true), NeverSmall).0.after;
    AddStoresOneVertex(first, dir, PlyNames.CanonicalName(PlyNames.Decimal(n2), "a"), n2);
  }

  /** Adding instance n of `a`, a one-vertex file, to a table without it stores it under `Key(Some(n), "a")`. */
  lemma AddStoresOneVertex(s: Shared, dir: string, name: string, n: U32)
    requires Tables.AllValid(s.artifacts) && Key(Some(n), "a") !in s.artifacts
    requires name == PlyNames.CanonicalName(PlyNames.Decimal(n), "a")
    ensures var r := AddStep(s, Path(dir, name), OneVertex(), GpuState(true, true), NeverSmall);
      r.0.panic.None? && r.1 == Some(Key(Some(n), "a"))
      && Key(Some(n), "a") in r.0.after.artifacts && Tables.AllValid(r.0.after.artifacts)
      && Tables.AgreeElsewhere(r.0.after.artifacts, s.artifacts, Key(Some(n), "a"))
  {
    NamesOneA(dir, name, n);
    InjectStoresPointCloud(s, Key(Some(n), "a"), OneVertex(), NeverSmall);
  }

  /** `add` as intended: the entry is keyed by the artifact alone, as `remove` looks it up. */
  function AddCorrectedStep(s: Shared, path: Path, file: PlyFile, gpu: GpuState, tooSmall: TooSmall): (r: (Outcome<Shared>, Option<Key>))
    requires Tables.AllValid(s.artifacts)
    ensures PlyNames.Captures(path.FileName()).None? ==> r == (Outcome(s, None), None)
    ensures PlyNames.Captures(path.FileName()).Some? ==>
      r.0 == InjectStep(s, Key(None, PlyNames.Captures(path.FileName()).value.1), file, gpu, tooSmall)
    ensures OneEntryPerArtifact(s.artifacts) ==> OneEntryPerArtifact(r.0.after.artifacts)
  {
    match PlyNames.Captures(path.FileName())
    case None => (Outcome(s, None), None)
    case Some((_, artifact)) =>
      var key := Key(None, artifact);
      var o := InjectStep(s, key, file, gpu, tooSmall);
      assert o.after.artifacts.Keys <= s.artifacts.Keys + {key} by {
        assert Tables.AgreeElsewhere(o.after.artifacts, s.artifacts, key);
      }
      (o, if o.panic.None? then Some(key) else None)
  }

  /** With the corrected `add`, removing the file just added leaves no entry for its artifact. */
  lemma RemoveAfterAddCorrected(s: Shared, path: Path, file: PlyFile, gpu: GpuState, tooSmall: TooSmall)
    requires Tables.AllValid(s.artifacts) && OneEntryPerArtifact(s.artifacts)
    requires PlyNames.Captures(path.FileName()).Some?
    ensures var after := RemoveStep(AddCorrectedStep(s, path, file, gpu, tooSmall).0.after, path).0;
      OneEntryPerArtifact(after.artifacts)
      && forall k :: k in after.artifacts ==> k.artifact != PlyNames.Captures(path.FileName()).value.1
  {
  }

  /** The sequencer: a handle on the shared table, updated in place through it. */
  class Replace {
    const table: Table

    constructor (table: Table)
      ensures this.table == table
    {
      this.table := table;
    }

    method Inject(key: Key, file: PlyFile, gpu: GpuState, tooSmall: TooSmall) returns (panic: Option<Panics.Reason>)
      requires table.Valid()
      modifies table
      ensures table.Valid()
      ensures Outcome(table.Value(), panic) == InjectStep(old(table.Value()), key, file, gpu, tooSmall)
    {
      if file.header.None? {
        return None;
      }
      var header := file.header.value;
      if Elements.Name(Elements.Vertex) !in header {
        return Some(Panics.MissingElement("vertex"));
      }
      if header[Elements.Name(Elements.Vertex)] == 0 {
        return None;
      }
      panic := Place(key, header, file, gpu, tooSmall);
    }

    /** The resize check, the entry created when it is missing, then refilled. */
    method Place(key: Key, header: Header, file: PlyFile, gpu: GpuState, tooSmall: TooSmall) returns (panic: Option<Panics.Reason>)
      requires table.Valid()
      modifies table
      ensures table.Valid()
      ensures Outcome(table.Value(), panic) == PlaceStep(old(table.Value()), key, header, file, gpu, tooSmall)
    {
      table.DropIfTooSmall(key, header, tooSmall);
      if key !in table.artifacts {
        var created := table.Create(key, header, gpu);
        if created.Panic? {
          return Some(created.reason);
        }
        if !created.value {
          return None;
        }
      }
      panic := Finish(key, header, file, gpu);
    }

    /** The queue unwrapped, `update_count`, `read_ply` and `write_buffer`, then `Add(key)`. */
    method Finish(key: Key, header: Header, file: PlyFile, gpu: GpuState) returns (panic: Option<Panics.Reason>)
      requires table.Valid() && key in table.artifacts
      modifies table
      ensures table.Valid()
      ensures Outcome(table.Value(), panic) == FinishStep(old(table.Value()), key, header, file, gpu)
    {
      if !gpu.queue {
        return Some(Panics.QueueNotSet);
      }
      var counted := table.artifacts[key].UpdateCount(header);
      if counted.Panic? {
        return Some(counted.reason);
      }
      var written := counted.value.ReadAndWrite(header, file);
      if written.Panic? {
        return Some(written.reason);
      }
      table.Put(key, written.value);
      table.Send(InjectionEvent.Add(key));
      panic := None;
    }

    method Add(path: Path, file: PlyFile, gpu: GpuState, tooSmall: TooSmall) returns (key: Option<Key>, panic: Option<Panics.Reason>)
      requires table.Valid()
      modifies table
      ensures table.Valid()
      ensures (Outcome(table.Value(), panic), key) == AddStep(old(table.Value()), path, file, gpu, tooSmall)
    {
      var capture := PlyNames.Captures(path.FileName());
      if capture.None? {
        return None, None;
      }
      var k := Key(PlyNames.ParseU32(capture.value.0), capture.value.1);
      panic := Inject(k, file, gpu, tooSmall);
      key := if panic.None? then Some(k) else None;
    }

    method AddCorrected(path: Path, file: PlyFile, gpu: GpuState, tooSmall: TooSmall) returns (key: Option<Key>, panic: Option<Panics.Reason>)
      requires table.Valid()
      modifies table
      ensures table.Valid()
      ensures (Outcome(table.Value(), panic), key) == AddCorrectedStep(old(table.Value()), path, file, gpu, tooSmall)
    {
      var capture := PlyNames.Captures(path.FileName());
      if capture.None? {
        return None, None;
      }
      var k := Key(None, capture.value.1);
      panic := Inject(k, file, gpu, tooSmall);
      key := if panic.None? then Some(k) else None;
    }

    method Remove(path: Path) returns (key: Option<Key>)
      modifies table
      ensures (table.Value(), key) == RemoveStep(old(table.Value()), path)
      ensures old(table.Valid()) ==> table.Valid()
    {
      var capture := PlyNames.Captures(path.FileName());
      if capture.None? {
        return None;
      }
      var k := Key(None, capture.value.1);
      table.Drop(k);
      table.Send(InjectionEvent.Remove(k));
      key := Some(k);
    }
  }
}
