/**
 * `loader::load`: the loader's version of the table step. The header is read before the name
 * is matched, keys carry no instance, and the queue is unwrapped after `update_count`.
 */
module Loader {
  import opened Wrappers
  import opened PlyTypes
  import opened Gpu
  import opened Keys
  import opened Artifacts
  import opened Tables
  import Panics
  import Elements
  import ModelVertex
  import PlyNames

  /** The key `load` derives from a file name: the artifact alone. */
  function KeyOf(name: string): (k: Option<Key>)
    ensures k.None? <==> PlyNames.Captures(name).None?
    ensures k.Some? ==> k.value == Key(None, PlyNames.Captures(name).value.1)
  {
    match PlyNames.Captures(name)
    case None => None
    case Some((_, artifact)) => Some(Key(None, artifact))
  }

  /** `update_count`, the queue unwrapped, `write_buffer`, then `Add(key)`. */
  function StoreStep(s: Shared, key: Key, header: Header, file: PlyFile, gpu: GpuState): (o: Outcome<Shared>)
    requires key in s.artifacts && AllValid(s.artifacts)
    ensures AllValid(o.after.artifacts)
    ensures AgreeElsewhere(o.after.artifacts, s.artifacts, key) && key in o.after.artifacts
    ensures o.after.nextId == s.nextId
    ensures o.after.events == s.events || (o.after.events == s.events + [Add(key)] && o.panic.None?)
    ensures o.panic.None? ==> o.after.events == s.events + [Add(key)]
  {
    match s.artifacts[key].UpdateCount(header)
    case Panic(why) => Outcome(s, Some(why))
    case Ok(counted) =>
      var t := s.(artifacts := s.artifacts[key := counted]);
      UpdateAgrees(s.artifacts, key, counted);
      if !gpu.queue then Outcome(t, Some(Panics.QueueNotSet))
      else
        match counted.WriteBuffer(header, file)
        case Panic(why) => Outcome(t, Some(why))
        case Ok(a) =>
          UpdateAgrees(s.artifacts, key, a);
          Outcome(Shared(s.artifacts[key := a], s.events + [Add(key)], s.nextId), None)
  }

  /** The resize check, the entry allocated when it is missing, then stored. */
  function PlaceStep(s: Shared, key: Key, header: Header, file: PlyFile, gpu: GpuState, tooSmall: TooSmall): (o: Outcome<Shared>)
    requires AllValid(s.artifacts)
    ensures AllValid(o.after.artifacts)
    ensures AgreeElsewhere(o.after.artifacts, s.artifacts, key)
    ensures o.after.events == s.events || (o.after.events == s.events + [Add(key)] && o.panic.None?)
    ensures o.after.events != s.events ==> key in o.after.artifacts
  {
    var evicted := s.(artifacts := Evict(s.artifacts, key, header, tooSmall));
    match Tables.Ready(evicted, key, header, gpu)
    case Panic(why) => Outcome(evicted, Some(why))
    case Ok(None) => Outcome(evicted, None)
    case Ok(Some(t)) => StoreStep(t, key, header, file, gpu)
  }

  /**
   * `load` on a file named name: an unreadable header, then a name that does not match, return
   * with nothing changed; otherwise only the entry of the artifact's key changes, and the
   * table keeps at most one entry per artifact.
   */
  function LoadStep(s: Shared, name: string, file: PlyFile, gpu: GpuState, tooSmall: TooSmall): (o: Outcome<Shared>)
    requires AllValid(s.artifacts)
    ensures AllValid(o.after.artifacts)
    ensures file.header.None? || KeyOf(name).None? ==> o == Outcome(s, None)
    ensures file.header.Some? && KeyOf(name).Some? ==>
      AgreeElsewhere(o.after.artifacts, s.artifacts, KeyOf(name).value)
      && (o.after.events == s.events || (o.after.events == s.events + [Add(KeyOf(name).value)] && o.panic.None?))
      && (o.after.events != s.events ==> KeyOf(name).value in o.after.artifacts)
    ensures OneEntryPerArtifact(s.artifacts) ==> OneEntryPerArtifact(o.after.artifacts)
  {
    match file.header
    case None => Outcome(s, None)
    case Some(header) =>
      match KeyOf(name)
      case None => Outcome(s, None)
      case Some(key) => PlaceStep(s, key, header, file, gpu, tooSmall)
  }

  /** An entry missing after the resize check stays out without a ready device or a recognised header. */
  lemma LoadNeedsDevice(s: Shared, name: string, file: PlyFile, gpu: GpuState, tooSmall: TooSmall)
    requires AllValid(s.artifacts) && file.header.Some? && KeyOf(name).Some?
    requires var key := KeyOf(name).value;
      !(key in s.artifacts && !s.artifacts[key].NeedsResize(file.header.value, tooSmall))
    requires !gpu.device || New(file.header.value, s.nextId, s.nextId + 1) == Ok(None)
    ensures LoadStep(s, name, file, gpu, tooSmall) == Outcome(s.(artifacts := s.artifacts - {KeyOf(name).value}), None)
  {
    assert Evict(s.artifacts, KeyOf(name).value, file.header.value, tooSmall) == s.artifacts - {KeyOf(name).value};
  }

  /** A lone face element makes `Artifact::new` panic when the entry has to be allocated. */
  lemma LoadLoneFacePanics(s: Shared, name: string, file: PlyFile, tooSmall: TooSmall)
    requires AllValid(s.artifacts) && file.header.Some? && KeyOf(name).Some? && KeyOf(name).value !in s.artifacts
    requires Recognized(file.header.value) == {Elements.Face}
    ensures LoadStep(s, name, file, GpuState(true, true), tooSmall) == Outcome(s, Some(Panics.MissingElement("vertex")))
  {
  }

  /**
   * On success the entry holds the header's counts and its buffers hold the file's records,
   * and exactly one `Add` is sent.
   */
  lemma LoadStoresCounts(s: Shared, name: string, file: PlyFile, gpu: GpuState, tooSmall: TooSmall)
    requires AllValid(s.artifacts) && file.header.Some? && KeyOf(name).Some?
    ensures var o := LoadStep(s, name, file, gpu, tooSmall);
      var key := KeyOf(name).value;
      o.panic.None? && o.after.events != s.events ==>
        o.after.events == s.events + [Add(key)]
        && (o.after.artifacts[key].PointCloud? ==>
              "vertex" in file.header.value && o.after.artifacts[key].Counts() == AsU32(file.header.value["vertex"]))
        && (o.after.artifacts[key].Wireframe? ==>
              "face" in file.header.value && o.after.artifacts[key].Counts() == AsU32(AsU32(file.header.value["face"]) * 3))
        && (o.after.artifacts[key].Mesh? ==>
              "face" in file.header.value && o.after.artifacts[key].Counts() == AsU32(file.header.value["face"]))
        && o.after.artifacts[key].HoldsVertices(file)
  {
    var key := KeyOf(name).value;
    var header := file.header.value;
    var o := LoadStep(s, name, file, gpu, tooSmall);
    if o.panic.None? && o.after.events != s.events {
      var evicted := s.(artifacts := Evict(s.artifacts, key, header, tooSmall));
      var ready: Result<Option<Shared>, Panics.Reason> :=
        if key in evicted.artifacts then Ok(Some(evicted)) else Allocate(evicted, key, header, gpu);
      assert o == StoreStep(ready.value.value, key, header, file, gpu);
      var counted := ready.value.value.artifacts[key].UpdateCount(header).value;
      assert o.after.artifacts[key] == counted.WriteBuffer(header, file).value;
    }
  }

  /** Loading two files of one artifact leaves one entry for it, whatever their instance numbers. */
  lemma LoadSharesEntry(s: Shared, first: string, second: string, file1: PlyFile, file2: PlyFile, gpu: GpuState, tooSmall: TooSmall)
    requires AllValid(s.artifacts) && OneEntryPerArtifact(s.artifacts)
    ensures var after := LoadStep(LoadStep(s, first, file1, gpu, tooSmall).after, second, file2, gpu, tooSmall).after;
      forall k1, k2 :: k1 in after.artifacts && k2 in after.artifacts && k1.artifact == k2.artifact ==> k1 == k2
  {
  }

  /** The loader task's call of `load`, on the table it shares with the window thread. */
  method Load(table: Table, path: Path, file: PlyFile, gpu: GpuState, tooSmall: TooSmall) returns (panic: Option<Panics.Reason>)
    requires table.Valid()
    modifies table
    ensures table.Valid()
    ensures Outcome(table.Value(), panic) == LoadStep(old(table.Value()), path.FileName(), file, gpu, tooSmall)
  {
    if file.header.None? {
      return None;
    }
    var header := file.header.value;
    var capture := PlyNames.Captures(path.FileName());
    if capture.None? {
      return None;
    }
    var key := Key(None, capture.value.1);
    table.DropIfTooSmall(key, header, tooSmall);
    if key !in table.artifacts {
      var created := table.Create(key, header, gpu);
      if created.Panic? {
        return Some(created.reason);
      }
      if !created.value {
        return None;
      }
    }
    panic := Store(table, key, header, file, gpu);
  }

  method Store(table: Table, key: Key, header: Header, file: PlyFile, gpu: GpuState) returns (panic: Option<Panics.Reason>)
    requires table.Valid() && key in table.artifacts
    modifies table
    ensures table.Valid()
    ensures Outcome(table.Value(), panic) == StoreStep(old(table.Value()), key, header, file, gpu)
  {
    ghost var s := table.Value();
    var counted := table.artifacts[key].UpdateCount(header);
    if counted.Panic? {
      return Some(counted.reason);
    }
    table.Put(key, counted.value);
    ghost var t := table.Value();
    assert t == s.(artifacts := s.artifacts[key := counted.value]);
    if !gpu.queue {
      assert StoreStep(s, key, header, file, gpu) == Outcome(t, Some(Panics.QueueNotSet));
      return Some(Panics.QueueNotSet);
    }
    var written := counted.value.WriteBuffer(header, file);
    if written.Panic? {
      assert StoreStep(s, key, header, file, gpu) == Outcome(t, Some(written.reason));
      return Some(written.reason);
    }
    table.Put(key, written.value);
    assert table.artifacts == s.artifacts[key := written.value];
    table.Send(InjectionEvent.Add(key));
    panic := None;
  }
}
