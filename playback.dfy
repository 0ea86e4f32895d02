/**
 * `playback.rs`: the playback table keyed by artifact name, its `upload`, and the `run` loop
 * that walks the assets directory in sorted order, one pass after another, pausing whenever
 * the frame number changes.
 */
module Playback {
  import opened Wrappers
  import opened PlyTypes
  import opened Gpu
  import opened Keys
  import opened Artifacts
  import opened Tables
  import Panics
  import ModelVertex
  import Elements
  import PlyNames
  import Listing

  /** The playback table: one entry per artifact name, and the next free buffer handle. */
  datatype State = State(artifact: map<string, Artifact>, nextId: nat)

  /** The table an entry of `upload` leaves after the resize check. */
  function Evicted(s: State, key: FrameKey, header: Header, tooSmall: TooSmall): (t: State)
    ensures t.nextId == s.nextId
    ensures AgreeElsewhere(t.artifact, s.artifact, key.artifact)
    ensures key.artifact in t.artifact ==> key.artifact in s.artifact && t.artifact[key.artifact] == s.artifact[key.artifact]
    ensures AllValid(s.artifact) ==> AllValid(t.artifact)
  {
    s.(artifact := Evict(s.artifact, key.artifact, header, tooSmall))
  }

  /**
   * `Playback::upload`: the header unwrapped, the entry dropped when too small, a missing
   * entry allocated (on the ready device; an unknown kind is not inserted, but the call goes
   * on), then, once the queue is ready, the payload written into the entry's buffers. No draw
   * count is updated and no event is sent.
   */
  function UploadStep(s: State, key: FrameKey, file: PlyFile, gpu: GpuState, tooSmall: TooSmall): (o: Outcome<State>)
    requires AllValid(s.artifact)
    ensures file.header.None? ==> o == Outcome(s, Some(Panics.HeaderUnreadable))
    ensures AllValid(o.after.artifact)
    ensures AgreeElsewhere(o.after.artifact, s.artifact, key.artifact)
    ensures o.after.nextId == s.nextId || o.after.nextId == s.nextId + 2
  {
    match file.header
    case None => Outcome(s, Some(Panics.HeaderUnreadable))
    case Some(header) =>
      var evicted := Evicted(s, key, header, tooSmall);
      if key.artifact !in evicted.artifact && !gpu.device then Outcome(evicted, None)
      else
        match Ready(evicted, key, header)
        case Panic(why) => Outcome(evicted, Some(why))
        case Ok(t) => WriteStep(t, key, header, file, gpu)
  }

  /** An entry big enough for the header keeps its buffers: no new handles, the same sizes. */
  lemma UploadKeepsBuffers(s: State, key: FrameKey, file: PlyFile, gpu: GpuState, tooSmall: TooSmall)
    requires AllValid(s.artifact) && file.header.Some?
    requires key.artifact in s.artifact && !s.artifact[key.artifact].NeedsResize(file.header.value, tooSmall)
    ensures var o := UploadStep(s, key, file, gpu, tooSmall);
      o.after.nextId == s.nextId && key.artifact in o.after.artifact
      && o.after.artifact[key.artifact].SameBuffers(s.artifact[key.artifact])
  {
    assert Evicted(s, key, file.header.value, tooSmall) == s;
  }

  /** Without a ready device a missing entry stays missing, and only the resize check happened. */
  lemma UploadNeedsDevice(s: State, key: FrameKey, file: PlyFile, gpu: GpuState, tooSmall: TooSmall)
    requires AllValid(s.artifact) && file.header.Some? && !gpu.device
    requires key.artifact !in Evicted(s, key, file.header.value, tooSmall).artifact
    ensures UploadStep(s, key, file, gpu, tooSmall) == Outcome(Evicted(s, key, file.header.value, tooSmall), None)
  {
  }

  /** When the upload goes through on a ready queue, the vertex buffer begins with the file's vertices. */
  lemma UploadWritesVertices(s: State, key: FrameKey, file: PlyFile, gpu: GpuState, tooSmall: TooSmall)
    requires AllValid(s.artifact)
    ensures var o := UploadStep(s, key, file, gpu, tooSmall);
      o.panic.None? && gpu.queue && key.artifact in o.after.artifact ==> o.after.artifact[key.artifact].HoldsVertices(file)
  {
  }

  /** The entry under key as the write finds it: the one there, or else one allocated for it. */
  function Ready(t: State, key: FrameKey, header: Header): (r: Result<State, Panics.Reason>)
    requires AllValid(t.artifact)
    ensures key.artifact in t.artifact ==> r == Ok(t)
    ensures r.Ok? ==> AllValid(r.value.artifact) && AgreeElsewhere(r.value.artifact, t.artifact, key.artifact)
    ensures r.Ok? ==> r.value.nextId == t.nextId || r.value.nextId == t.nextId + 2
  {
    if key.artifact in t.artifact then Ok(t) else Allocated(t, key, header)
  }

  /** A missing entry made by `Artifact::new` under the next two handles; an unknown kind is not inserted. */
  function Allocated(t: State, key: FrameKey, header: Header): (r: Result<State, Panics.Reason>)
    requires AllValid(t.artifact) && key.artifact !in t.artifact
    ensures r.Panic? <==> New(header, t.nextId, t.nextId + 1).Panic?
    ensures r.Panic? ==> r.reason == New(header, t.nextId, t.nextId + 1).reason
    ensures r.Ok? ==> AllValid(r.value.artifact) && AgreeElsewhere(r.value.artifact, t.artifact, key.artifact)
    ensures r.Ok? ==> (key.artifact in r.value.artifact <==> New(header, t.nextId, t.nextId + 1).value.Some?)
    ensures r.Ok? && key.artifact in r.value.artifact ==>
      r.value == State(t.artifact[key.artifact := New(header, t.nextId, t.nextId + 1).value.value], t.nextId + 2)
    ensures r.Ok? && key.artifact !in r.value.artifact ==> r.value == t
  {
    match New(header, t.nextId, t.nextId + 1)
    case Panic(why) => Panic(why)
    case Ok(None) => Ok(t)
    case Ok(Some(a)) =>
      UpdateAgrees(t.artifact, key.artifact, a);
      Ok(State(t.artifact[key.artifact := a], t.nextId + 2))
  }

  /** The queue unwrapped and the entry, when there is one, written. */
  function WriteStep(t: State, key: FrameKey, header: Header, file: PlyFile, gpu: GpuState): (o: Outcome<State>)
    requires AllValid(t.artifact)
    ensures AllValid(o.after.artifact)
    ensures AgreeElsewhere(o.after.artifact, t.artifact, key.artifact)
    ensures o.after.nextId == t.nextId
    ensures key.artifact in o.after.artifact <==> key.artifact in t.artifact
    ensures key.artifact in o.after.artifact ==> o.after.artifact[key.artifact].SameBuffers(t.artifact[key.artifact])
    ensures key.artifact in o.after.artifact ==> o.after.artifact[key.artifact].Counts() == t.artifact[key.artifact].Counts()
    ensures o.panic.None? && gpu.queue && key.artifact in o.after.artifact ==>
      o.after.artifact[key.artifact].HoldsVertices(file)
  {
    if !gpu.queue || key.artifact !in t.artifact then Outcome(t, None)
    else
      match t.artifact[key.artifact].WriteBuffer(header, file)
      case Panic(why) => Outcome(t, Some(why))
      case Ok(a) =>
        UpdateAgrees(t.artifact, key.artifact, a);
        Outcome(t.(artifact := t.artifact[key.artifact := a]), None)
  }

  /** Every entry's draw count is zero. */
  predicate AllUncounted(t: map<string, Artifact>)
  {
    forall k :: k in t ==> t[k].Counts() == 0
  }

  /**
   * `upload` never calls `update_count`, and `Artifact::new` starts every count at zero: a table
   * filled only by playback never draws anything.
   */
  lemma UploadLeavesCountsZero(s: State, key: FrameKey, file: PlyFile, gpu: GpuState, tooSmall: TooSmall)
    requires AllValid(s.artifact) && AllUncounted(s.artifact)
    ensures AllUncounted(UploadStep(s, key, file, gpu, tooSmall).after.artifact)
  {
    if file.header.Some? {
      var header := file.header.value;
      var evicted := Evicted(s, key, header, tooSmall);
      assert AllUncounted(evicted.artifact);
      if key.artifact in evicted.artifact || gpu.device {
        ReadyLeavesCountsZero(evicted, key, header);
      }
    }
  }

  /** `Artifact::new` starts the count of what it allocates at zero. */
  lemma ReadyLeavesCountsZero(t: State, key: FrameKey, header: Header)
    requires AllValid(t.artifact) && AllUncounted(t.artifact)
    ensures Ready(t, key, header).Ok? ==> AllUncounted(Ready(t, key, header).value.artifact)
  {
    if key.artifact !in t.artifact {
      match New(header, t.nextId, t.nextId + 1)
      case Panic(_) =>
      case Ok(None) =>
      case Ok(Some(a)) =>
        assert a.Counts() == 0;
        assert Ready(t, key, header).value.artifact == t.artifact[key.artifact := a];
    }
  }

  /** A kind `Artifact::new` does not know is not inserted, and nothing else changes. */
  lemma UploadSkipsUnknownKind(s: State, key: FrameKey, file: PlyFile, gpu: GpuState, tooSmall: TooSmall)
    requires AllValid(s.artifact) && file.header.Some? && gpu.device
    requires key.artifact !in s.artifact && Recognized(file.header.value) == {}
    ensures UploadStep(s, key, file, gpu, tooSmall) == Outcome(s, None)
  {
    assert New(file.header.value, s.nextId, s.nextId + 1) == Ok(None);
  }

  /** A fresh point cloud is allocated under the next two handles and gets its vertices written. */
  lemma UploadAllocatesPointCloud(s: State, key: FrameKey, file: PlyFile, gpu: GpuState, tooSmall: TooSmall)
    requires AllValid(s.artifact) && file.header.Some? && gpu.device && gpu.queue
    requires key.artifact !in s.artifact && Recognized(file.header.value) == {Elements.Vertex}
    requires |file.vertexRows| == file.header.value["vertex"]
    ensures var o := UploadStep(s, key, file, gpu, tooSmall);
      o.panic.None? && o.after.nextId == s.nextId + 2 && key.artifact in o.after.artifact
      && o.after.artifact[key.artifact].PointCloud?
      && o.after.artifact[key.artifact].VertexBuffer().id == s.nextId
  {
    var header := file.header.value;
    var a := New(header, s.nextId, s.nextId + 1).value.value;
    NewHoldsWhatIsWritten(header, s.nextId, s.nextId + 1, file);
    assert a.WriteBuffer(header, file).Ok?;
  }

  /**
   * One entry of `run`'s trace: the key uploaded, the `Refresh` event sent for it, and whether
   * `run` then waited for the next tick because the frame number changed.
   */
  datatype Shown = Shown(key: FrameKey, waited: bool)

  /** How `run` stops: the listings given ran out, the exit signal arrived, or a panic. */
  datatype Status = Exhausted | Exited | Panicked(reason: Panics.Reason)

  /** What `run` did: the trace, the table it left, how it stopped, and how many waits it counted by then. */
  datatype Played = Played(trace: seq<Shown>, state: State, status: Status, waits: nat)

  function Then(head: seq<Shown>, r: Played): (p: Played)
    ensures p.state == r.state && p.status == r.status && p.waits == r.waits && p.trace == head + r.trace
  {
    r.(trace := head + r.trace)
  }

  lemma ThenThen(a: seq<Shown>, b: seq<Shown>, r: Played)
    ensures Then(a, Then(b, r)) == Then(a + b, r)
  {
    assert a + (b + r.trace) == (a + b) + r.trace;
  }

  /** How many waits a trace holds. */
  function Waits(trace: seq<Shown>): nat
  {
    if trace == [] then 0 else (if trace[0].waited then 1 else 0) + Waits(trace[1..])
  }

  lemma {:induction false} WaitsAppend(a: seq<Shown>, b: seq<Shown>)
    ensures Waits(a + b) == Waits(a) + Waits(b)
  {
    if a != [] {
      assert (a + b)[0] == a[0];
      assert (a + b)[1..] == a[1..] + b;
      WaitsAppend(a[1..], b);
    } else {
      assert a + b == b;
    }
  }

  /** The artifact that `run` skips. */
  const Planes: string := "reconstruction.planes"

  /** No entry of the trace names the planes. */
  predicate NoPlanes(trace: seq<Shown>)
  {
    forall i :: 0 <= i < |trace| ==> trace[i].key.artifact != Planes
  }

  /** Each entry waited exactly when its frame differs from the one shown before it, starting from `current`. */
  predicate WaitsOnChange(trace: seq<Shown>, current: U32)
  {
    trace == [] || ((trace[0].waited <==> trace[0].key.frame != current) && WaitsOnChange(trace[1..], trace[0].key.frame))
  }

  /** The filter of `run`: `PLY_RE` matches somewhere in the full path. */
  predicate Matches(path: string)
  {
    PlyNames.Captures(path).Some?
  }

  /** What `run` keeps from a directory listing: the full paths `PLY_RE` matches, in sorted order. */
  function PassPaths(dir: string, names: seq<string>): (paths: seq<string>)
    ensures forall p :: p in paths ==> Matches(p)
    ensures forall x :: x in names && Matches(Path(dir, x).FullPath()) ==> Path(dir, x).FullPath() in paths
  {
    var sorted := Listing.SortedPass(dir, names, Matches);
    var paths := FullPaths(dir, sorted);
    forall p | p in paths ensures Matches(p) {
      var i :| 0 <= i < |paths| && paths[i] == p;
      assert sorted[i] in sorted;
    }
    paths
  }

  /** The full path of each name of the directory, in the same order. */
  function FullPaths(dir: string, names: seq<string>): (r: seq<string>)
    ensures |r| == |names| && forall i :: 0 <= i < |names| ==> r[i] == Path(dir, names[i]).FullPath()
    ensures forall x :: x in names ==> Path(dir, x).FullPath() in r
  {
    var r := seq(|names|, i requires 0 <= i < |names| => Path(dir, names[i]).FullPath());
    forall x | x in names ensures Path(dir, x).FullPath() in r {
      var i :| 0 <= i < |names| && names[i] == x;
      assert r[i] == Path(dir, x).FullPath();
    }
    r
  }

  /**
   * What `run` calls `upload` with: the table, the key and the file's contents. The passes are
   * stated for any such step; `run` uses `UploadWith`.
   */
  type Uploader = (State, FrameKey, PlyFile) -> Outcome<State>

  /** `Playback::upload` on the given device state and size check, on well-formed tables. */
  ghost function UploadWith(gpu: GpuState, tooSmall: TooSmall): (u: Uploader)
    ensures forall s: State, k: FrameKey, f: PlyFile :: AllValid(s.artifact) ==> u(s, k, f) == UploadStep(s, k, f, gpu, tooSmall)
  {
    (s: State, k: FrameKey, f: PlyFile) => if AllValid(s.artifact) then UploadStep(s, k, f, gpu, tooSmall) else Outcome(s, None)
  }

  /** Where one path of a pass leaves `run`: what it showed, the table, whether it stopped, the frame, the waits so far. */
  datatype Advance = Advance(shown: seq<Shown>, state: State, stop: Option<Status>, current: U32, waits: nat)

  /**
   * One path of a pass: the frame number parsed (a number that does not fit a `u32` panics),
   * the planes skipped, any other artifact uploaded and refreshed, and a wait before a changed
   * frame, during which the exit signal arrives when it is wait number `exitAt`.
   */
  function PathStep(s: State, asset: Asset, current: U32, waits: nat, exitAt: nat,
                    contents: string -> PlyFile, upload: Uploader): (a: Advance)
    ensures a.stop != Some(Exhausted) && |a.shown| <= 1
    ensures a.shown == [] ==> a.current == current && a.waits == waits && a.stop != Some(Exited)
    ensures a.shown != [] ==>
      var e := a.shown[0];
      e.key.artifact != Planes && a.current == e.key.frame && (e.waited <==> e.key.frame != current)
      && a.waits == waits + (if e.waited then 1 else 0)
      && (a.stop.Some? <==> e.waited && waits == exitAt) && (a.stop.Some? ==> a.stop.value == Exited)
  {
    match PlyNames.ParseU32(asset.frame)
    case None => Advance([], s, Some(Panicked(Panics.FrameOutOfRange)), current, waits)
    case Some(frame) =>
      if asset.artifact == Planes then Advance([], s, None, current, waits)
      else
        var key := FrameKey(frame, asset.artifact);
        var up := upload(s, key, contents(asset.path));
        if up.panic.Some? then Advance([], up.after, Some(Panicked(up.panic.value)), current, waits)
        else if current == frame then Advance([Shown(key, false)], up.after, None, frame, waits)
        else if waits == exitAt then Advance([Shown(key, true)], up.after, Some(Exited), frame, waits + 1)
        else Advance([Shown(key, true)], up.after, None, frame, waits + 1)
  }

  /** One pass of `run` over its sorted paths, from the frame last shown, with waits already counted. */
  function PassFrom(s: State, paths: seq<Asset>, current: U32, waits: nat, exitAt: nat,
                    contents: string -> PlyFile, upload: Uploader): (r: Played)
    decreases |paths|
  {
    if paths == [] then Played([], s, Exhausted, waits)
    else
      var a := PathStep(s, paths[0], current, waits, exitAt, contents, upload);
      if a.stop.Some? then Played(a.shown, a.state, a.stop.value, a.waits)
      else Then(a.shown, PassFrom(a.state, paths[1..], a.current, a.waits, exitAt, contents, upload))
  }

  /** The first step of a pass. */
  lemma PassFromUnfolds(s: State, paths: seq<Asset>, current: U32, waits: nat, exitAt: nat,
                        contents: string -> PlyFile, upload: Uploader)
    requires paths != []
    ensures var a := PathStep(s, paths[0], current, waits, exitAt, contents, upload);
      PassFrom(s, paths, current, waits, exitAt, contents, upload)
      == if a.stop.Some? then Played(a.shown, a.state, a.stop.value, a.waits)
         else Then(a.shown, PassFrom(a.state, paths[1..], a.current, a.waits, exitAt, contents, upload))
  {
  }

  /** A path `run` keeps, with what `PLY_RE` captures in it: the frame digits and the artifact name. */
  datatype Asset = Asset(path: string, frame: string, artifact: string)

  /** The captures of paths the filter kept. */
  function Captured(paths: seq<string>): (assets: seq<Asset>)
    requires forall p :: p in paths ==> Matches(p)
    ensures |assets| == |paths|
    ensures forall i :: 0 <= i < |paths| ==>
      assets[i].path == paths[i] && PlyNames.Captures(paths[i]) == Some((assets[i].frame, assets[i].artifact))
  {
    if paths == [] then []
    else
      assert paths[0] in paths && Matches(paths[0]);
      var caps := PlyNames.Captures(paths[0]).value;
      [Asset(paths[0], caps.0, caps.1)] + Captured(paths[1..])
  }

  /** The passes `run` makes over successive listings of the assets directory. */
  function Passes(dir: string, listings: seq<seq<string>>): (passes: seq<seq<Asset>>)
    ensures |passes| == |listings|
    ensures forall i :: 0 <= i < |listings| ==> passes[i] == Captured(PassPaths(dir, listings[i]))
  {
    seq(|listings|, i requires 0 <= i < |listings| => Captured(PassPaths(dir, listings[i])))
  }

  /** `run` over its passes, each starting at frame 0. */
  function RunFrom(s: State, passes: seq<seq<Asset>>, waits: nat, exitAt: nat,
                   contents: string -> PlyFile, upload: Uploader): (r: Played)
    decreases |passes|
  {
    if passes == [] then Played([], s, Exhausted, waits)
    else
      var pass := PassFrom(s, passes[0], 0, waits, exitAt, contents, upload);
      if pass.status != Exhausted then pass
      else Then(pass.trace, RunFrom(pass.state, passes[1..], pass.waits, exitAt, contents, upload))
  }

  /** The first pass of a run. */
  lemma RunFromUnfolds(s: State, passes: seq<seq<Asset>>, waits: nat, exitAt: nat,
                       contents: string -> PlyFile, upload: Uploader)
    requires passes != []
    ensures var pass := PassFrom(s, passes[0], 0, waits, exitAt, contents, upload);
      RunFrom(s, passes, waits, exitAt, contents, upload)
      == if pass.status != Exhausted then pass
         else Then(pass.trace, RunFrom(pass.state, passes[1..], pass.waits, exitAt, contents, upload))
  {
  }

  /** A trace's shape: no planes, and an exit during wait number `exitAt`, as its last entry. */
  predicate Ends(r: Played, waits: nat, exitAt: nat)
  {
    NoPlanes(r.trace) && r.waits == waits + Waits(r.trace)
    && (r.status == Exited ==> r.trace != [] && r.trace[|r.trace| - 1].waited && r.waits == exitAt + 1)
    && (r.status != Exited ==> r.waits <= exitAt)
  }

  lemma ThenEnds(head: seq<Shown>, r: Played, waits: nat, exitAt: nat)
    requires NoPlanes(head) && Ends(r, waits + Waits(head), exitAt)
    ensures Ends(Then(head, r), waits, exitAt)
  {
    var t := head + r.trace;
    forall i | 0 <= i < |t| ensures t[i].key.artifact != Planes {
      if i < |head| {
        assert t[i] == head[i];
      } else {
        assert t[i] == r.trace[i - |head|];
      }
    }
    WaitsAppend(head, r.trace);
    if r.trace != [] {
      assert t[|t| - 1] == r.trace[|r.trace| - 1];
    }
  }

  /**
   * A pass never shows the planes, waits exactly when the frame changes, and, when the exit
   * signal ended it, did so during wait number `exitAt`, its last entry.
   */
  lemma {:induction false} PassShape(s: State, paths: seq<Asset>, current: U32, waits: nat, exitAt: nat,
                                     contents: string -> PlyFile, upload: Uploader)
    requires waits <= exitAt
    ensures var r := PassFrom(s, paths, current, waits, exitAt, contents, upload);
      Ends(r, waits, exitAt) && WaitsOnChange(r.trace, current)
    decreases |paths|
  {
    if paths != [] {
      var a := PathStep(s, paths[0], current, waits, exitAt, contents, upload);
      if a.stop.None? {
        var rest := PassFrom(a.state, paths[1..], a.current, a.waits, exitAt, contents, upload);
        PassShape(a.state, paths[1..], a.current, a.waits, exitAt, contents, upload);
        if a.shown == [] {
          assert a.shown + rest.trace == rest.trace;
        } else {
          assert Waits(a.shown) == (if a.shown[0].waited then 1 else 0);
          ThenEnds(a.shown, rest, waits, exitAt);
          assert (a.shown + rest.trace)[1..] == rest.trace;
        }
      } else if a.shown != [] {
        assert Waits(a.shown) == (if a.shown[0].waited then 1 else 0);
      }
    }
  }

  /** The same of a whole run over many listings. */
  lemma {:induction false} RunShape(s: State, passes: seq<seq<Asset>>, waits: nat, exitAt: nat,
                                    contents: string -> PlyFile, upload: Uploader)
    requires waits <= exitAt
    ensures Ends(RunFrom(s, passes, waits, exitAt, contents, upload), waits, exitAt)
    decreases |passes|
  {
    if passes != [] {
      var pass := PassFrom(s, passes[0], 0, waits, exitAt, contents, upload);
      PassShape(s, passes[0], 0, waits, exitAt, contents, upload);
      if pass.status == Exhausted {
        var w := pass.waits;
        var rest := RunFrom(pass.state, passes[1..], w, exitAt, contents, upload);
        RunShape(pass.state, passes[1..], w, exitAt, contents, upload);
        ThenEnds(pass.trace, rest, waits, exitAt);
        assert RunFrom(s, passes, waits, exitAt, contents, upload) == Then(pass.trace, rest);
      } else {
        assert RunFrom(s, passes, waits, exitAt, contents, upload) == pass;
      }
    }
  }

  /** Every pass starts again from frame 0: the first entry of a run waited unless its frame is 0. */
  lemma {:induction false} RunStartsAtFrameZero(s: State, passes: seq<seq<Asset>>, waits: nat, exitAt: nat,
                                                contents: string -> PlyFile, upload: Uploader)
    requires waits <= exitAt
    ensures var r := RunFrom(s, passes, waits, exitAt, contents, upload);
      r.trace != [] ==> (r.trace[0].waited <==> r.trace[0].key.frame != 0)
    decreases |passes|
  {
    if passes != [] {
      var pass := PassFrom(s, passes[0], 0, waits, exitAt, contents, upload);
      PassShape(s, passes[0], 0, waits, exitAt, contents, upload);
      if pass.status == Exhausted && pass.trace == [] {
        var rest := RunFrom(pass.state, passes[1..], waits, exitAt, contents, upload);
        RunStartsAtFrameZero(pass.state, passes[1..], waits, exitAt, contents, upload);
        assert pass.trace + rest.trace == rest.trace;
      } else if pass.trace != [] {
        assert RunFrom(s, passes, waits, exitAt, contents, upload).trace[0] == pass.trace[0];
      }
    }
  }

  /** `Playback`: the table `run` fills and the window thread draws from. */
  class Playback {
    var artifact: map<string, Artifact>
    var nextId: nat

    function Value(): State
      reads this
    {
      State(artifact, nextId)
    }

    ghost predicate Valid()
      reads this
    {
      AllValid(artifact)
    }

    /** `Playback::new`: an empty table. */
    constructor ()
      ensures Valid() && Value() == State(map[], 0)
    {
      artifact, nextId := map[], 0;
    }

    /** `Playback::upload`. */
    method Upload(key: FrameKey, file: PlyFile, gpu: GpuState, tooSmall: TooSmall) returns (panic: Option<Panics.Reason>)
      requires Valid()
      modifies this
      ensures Valid()
      ensures Outcome(Value(), panic) == UploadStep(old(Value()), key, file, gpu, tooSmall)
    {
      if file.header.None? {
        return Some(Panics.HeaderUnreadable);
      }
      var header := file.header.value;
      DropIfTooSmall(key, header, tooSmall);
      if key.artifact !in artifact {
        if !gpu.device {
          return None;
        }
        var created := Create(key, header);
        if created.Panic? {
          return Some(created.reason);
        }
      }
      panic := Write(key, header, file, gpu);
    }

    /** The entry dropped when its buffers are too small for the header. */
    method DropIfTooSmall(key: FrameKey, header: Header, tooSmall: TooSmall)
      requires Valid()
      modifies this
      ensures Valid()
      ensures Value() == Evicted(old(Value()), key, header, tooSmall)
    {
      if key.artifact in artifact && artifact[key.artifact].NeedsResize(header, tooSmall) {
        artifact := artifact - {key.artifact};
      }
    }

    /** `Artifact::new` for a missing entry, inserted when the kind is known. */
    method Create(key: FrameKey, header: Header) returns (r: Result<bool, Panics.Reason>)
      requires Valid() && key.artifact !in artifact
      modifies this
      ensures Valid()
      ensures match Allocated(old(Value()), key, header)
        case Panic(why) => r == Panic(why) && Value() == old(Value())
        case Ok(t) => r == Ok(key.artifact in t.artifact) && Value() == t
    {
      match New(header, nextId, nextId + 1)
      case Panic(why) =>
        return Panic(why);
      case Ok(None) =>
        return Ok(false);
      case Ok(Some(a)) =>
        artifact := artifact[key.artifact := a];
        nextId := nextId + 2;
        return Ok(true);
    }

    /** The queue unwrapped and the entry's buffers written. */
    method Write(key: FrameKey, header: Header, file: PlyFile, gpu: GpuState) returns (panic: Option<Panics.Reason>)
      requires Valid()
      modifies this
      ensures Valid()
      ensures Outcome(Value(), panic) == WriteStep(old(Value()), key, header, file, gpu)
    {
      if !gpu.queue || key.artifact !in artifact {
        return None;
      }
      var written := artifact[key.artifact].WriteBuffer(header, file);
      if written.Panic? {
        return Some(written.reason);
      }
      artifact := artifact[key.artifact := written.value];
      panic := None;
    }
  }

  /**
   * `run`, over the listings its passes read, with `exitAt` saying during which wait the exit
   * signal arrives. Returns the trace of what it showed, and how it stopped.
   */
  method Run(playback: Playback, dir: string, listings: seq<seq<string>>, exitAt: nat,
             contents: string -> PlyFile, gpu: GpuState, tooSmall: TooSmall) returns (trace: seq<Shown>, status: Status)
    requires playback.Valid()
    modifies playback
    ensures playback.Valid()
    ensures var r := RunFrom(old(playback.Value()), Passes(dir, listings), 0, exitAt, contents, UploadWith(gpu, tooSmall));
      trace == r.trace && playback.Value() == r.state && status == r.status
  {
    ghost var upload := UploadWith(gpu, tooSmall);
    ghost var s0 := playback.Value();
    ghost var passes := Passes(dir, listings);
    trace := [];
    var waits := 0;
    var i := 0;
    while i < |listings|
      invariant 0 <= i <= |listings| && playback.Valid()
      invariant RunFrom(s0, passes, 0, exitAt, contents, upload)
        == Then(trace, RunFrom(playback.Value(), passes[i..], waits, exitAt, contents, upload))
    {
      ghost var before, waits0 := playback.Value(), waits;
      var paths := Captured(PassPaths(dir, listings[i]));
      assert passes[i..][0] == paths && passes[i..][1..] == passes[i + 1..];
      RunFromUnfolds(before, passes[i..], waits0, exitAt, contents, upload);
      var shown;
      shown, status, waits := Pass(playback, paths, waits, exitAt, contents, gpu, tooSmall);
      if status != Exhausted {
        assert RunFrom(before, passes[i..], waits0, exitAt, contents, upload) == Played(shown, playback.Value(), status, waits);
        trace := trace + shown;
        return;
      }
      ghost var rest := RunFrom(playback.Value(), passes[i + 1..], waits, exitAt, contents, upload);
      assert RunFrom(before, passes[i..], waits0, exitAt, contents, upload) == Then(shown, rest);
      ThenThen(trace, shown, rest);
      trace := trace + shown;
      i := i + 1;
    }
    status := Exhausted;
  }

  /** One pass of `run`: the loop over the sorted paths, from frame 0. */
  method Pass(playback: Playback, paths: seq<Asset>, waits: nat, exitAt: nat,
              contents: string -> PlyFile, gpu: GpuState, tooSmall: TooSmall)
    returns (trace: seq<Shown>, status: Status, waits': nat)
    requires playback.Valid()
    modifies playback
    ensures playback.Valid()
    ensures Played(trace, playback.Value(), status, waits')
      == PassFrom(old(playback.Value()), paths, 0, waits, exitAt, contents, UploadWith(gpu, tooSmall))
  {
    ghost var upload := UploadWith(gpu, tooSmall);
    ghost var p0 := playback.Value();
    trace := [];
    waits' := waits;
    var current: U32 := 0;
    var j := 0;
    while j < |paths|
      invariant 0 <= j <= |paths| && playback.Valid()
      invariant PassFrom(p0, paths, 0, waits, exitAt, contents, upload)
        == Then(trace, PassFrom(playback.Value(), paths[j..], current, waits', exitAt, contents, upload))
    {
      ghost var before, current0, waits0 := playback.Value(), current, waits';
      var shown, stop;
      shown, stop, current, waits' := Visit(playback, paths[j], current, waits', exitAt, contents, gpu, tooSmall);
      ghost var a := PathStep(before, paths[j], current0, waits0, exitAt, contents, upload);
      assert a == Advance(shown, playback.Value(), stop, current, waits');
      PassFromUnfolds(before, paths[j..], current0, waits0, exitAt, contents, upload);
      assert paths[j..][0] == paths[j] && paths[j..][1..] == paths[j + 1..];
      if stop.Some? {
        assert PassFrom(before, paths[j..], current0, waits0, exitAt, contents, upload) == Played(shown, playback.Value(), stop.value, waits');
        return trace + shown, stop.value, waits';
      }
      ghost var rest := PassFrom(playback.Value(), paths[j + 1..], current, waits', exitAt, contents, upload);
      assert PassFrom(before, paths[j..], current0, waits0, exitAt, contents, upload) == Then(shown, rest);
      ThenThen(trace, shown, rest);
      trace := trace + shown;
      j := j + 1;
    }
    status := Exhausted;
  }

  /** The body of `run`'s inner loop for one path. */
  method Visit(playback: Playback, asset: Asset, current: U32, waits: nat, exitAt: nat,
               contents: string -> PlyFile, gpu: GpuState, tooSmall: TooSmall)
    returns (shown: seq<Shown>, stop: Option<Status>, current': U32, waits': nat)
    requires playback.Valid()
    modifies playback
    ensures playback.Valid()
    ensures Advance(shown, playback.Value(), stop, current', waits')
      == PathStep(old(playback.Value()), asset, current, waits, exitAt, contents, UploadWith(gpu, tooSmall))
  {
    var frame := PlyNames.ParseU32(asset.frame);
    if frame.None? {
      return [], Some(Panicked(Panics.FrameOutOfRange)), current, waits;
    }
    if asset.artifact == Planes {
      return [], None, current, waits;
    }
    var key := FrameKey(frame.value, asset.artifact);
    var panic := playback.Upload(key, contents(asset.path), gpu, tooSmall);
    if panic.Some? {
      return [], Some(Panicked(panic.value)), current, waits;
    }
    if current == frame.value {
      return [Shown(key, false)], None, frame.value, waits;
    }
    if waits == exitAt {
      return [Shown(key, true)], Some(Exited), frame.value, waits + 1;
    }
    return [Shown(key, true)], None, frame.value, waits + 1;
  }
}
