/** What the three artifact tables share: dropping an entry whose buffers are too small. */
module Tables {
  import opened Wrappers
  import opened PlyTypes
  import opened Gpu
  import opened Keys
  import opened Artifacts
  import Panics

  /**
   * A table of artifacts behind its mutex, as `replace.rs` and `loader.rs` share it with the
   * window thread: the entries, the events sent so far, and the next free buffer handle.
   */
  datatype Shared = Shared(artifacts: map<Key, Artifact>, events: seq<InjectionEvent>, nextId: nat)

  /**
   * Where a call leaves the table, and the panic that ended it if one did. After a panic the
   * mutex is poisoned; the state is the one reached when the panic happened.
   */
  datatype Outcome<+S> = Outcome(after: S, panic: Option<Panics.Reason>)

  ghost predicate AllValid<K>(t: map<K, Artifact>)
  {
    forall k :: k in t ==> t[k].Valid()
  }

  /** The entry under key is dropped exactly when it exists and `needs_resize` says so. */
  function Evict<K(==)>(t: map<K, Artifact>, key: K, header: Header, tooSmall: TooSmall): (r: map<K, Artifact>)
    ensures key in t && t[key].NeedsResize(header, tooSmall) ==> r == t - {key}
    ensures !(key in t && t[key].NeedsResize(header, tooSmall)) ==> r == t
    ensures AllValid(t) ==> AllValid(r)
  {
    if key in t && t[key].NeedsResize(header, tooSmall) then t - {key} else t
  }

  /** The two tables agree on every key but key. */
  ghost predicate AgreeElsewhere<K(!new)>(t: map<K, Artifact>, u: map<K, Artifact>, key: K)
  {
    forall k :: k != key ==> (k in t <==> k in u) && (k in t ==> t[k] == u[k])
  }

  lemma UpdateAgrees<K(!new)>(t: map<K, Artifact>, key: K, a: Artifact)
    ensures AgreeElsewhere(t[key := a], t, key)
  {
  }

  /** A missing entry: none without a device, otherwise what `Artifact::new` makes, under the next two handles. */
  function Allocate(s: Shared, key: Key, header: Header, gpu: GpuState): (r: Result<Option<Shared>, Panics.Reason>)
    requires AllValid(s.artifacts) && key !in s.artifacts
    ensures !gpu.device ==> r == Ok(None)
    ensures gpu.device && New(header, s.nextId, s.nextId + 1).Panic? ==> r == Panic(New(header, s.nextId, s.nextId + 1).reason)
    ensures gpu.device && New(header, s.nextId, s.nextId + 1) == Ok(None) ==> r == Ok(None)
    ensures r.Ok? && r.value.Some? ==>
      gpu.device && New(header, s.nextId, s.nextId + 1).Ok? && New(header, s.nextId, s.nextId + 1).value.Some?
      && r.value.value == Shared(s.artifacts[key := New(header, s.nextId, s.nextId + 1).value.value], s.events, s.nextId + 2)
      && AllValid(r.value.value.artifacts)
  {
    if !gpu.device then Ok(None) else Inserted(s, key, New(header, s.nextId, s.nextId + 1))
  }

  /** The entry under key as the write finds it: the one there, or else one allocated for it. */
  function Ready(s: Shared, key: Key, header: Header, gpu: GpuState): (r: Result<Option<Shared>, Panics.Reason>)
    requires AllValid(s.artifacts)
    ensures key in s.artifacts ==> r == Ok(Some(s))
    ensures r.Ok? && r.value.Some? ==>
      AllValid(r.value.value.artifacts) && AgreeElsewhere(r.value.value.artifacts, s.artifacts, key)
      && key in r.value.value.artifacts && r.value.value.events == s.events
  {
    if key in s.artifacts then Ok(Some(s)) else Allocate(s, key, header, gpu)
  }

  /** What `Artifact::new` returned, inserted under key when it made an artifact, its two handles then taken. */
  function Inserted(s: Shared, key: Key, made: Result<Option<Artifact>, Panics.Reason>): (r: Result<Option<Shared>, Panics.Reason>)
    requires AllValid(s.artifacts) && key !in s.artifacts
    requires made.Ok? && made.value.Some? ==> made.value.value.Valid()
    ensures r.Panic? <==> made.Panic?
    ensures r.Ok? && r.value.Some? ==>
      AllValid(r.value.value.artifacts) && AgreeElsewhere(r.value.value.artifacts, s.artifacts, key)
      && key in r.value.value.artifacts && r.value.value.events == s.events
  {
    match made
    case Panic(why) => Panic(why)
    case Ok(None) => Ok(None)
    case Ok(Some(a)) =>
      UpdateAgrees(s.artifacts, key, a);
      Ok(Some(Shared(s.artifacts[key := a], s.events, s.nextId + 2)))
  }

  /** The table holds at most one entry per artifact name: every key is built without an instance. */
  predicate OneEntryPerArtifact(t: map<Key, Artifact>)
  {
    forall k :: k in t ==> k.instance.None?
  }

  lemma OneEntryPerArtifactUnique(t: map<Key, Artifact>, k1: Key, k2: Key)
    requires OneEntryPerArtifact(t) && k1 in t && k2 in t && k1.artifact == k2.artifact
    ensures k1 == k2
  {
  }

  /**
   * The `Arc<Mutex<HashMap<Key, Artifact>>>` the sequencers, the loader and the window thread
   * share, with the channel to the window thread and the device's buffer allocator beside it.
   */
  class Table {
    var artifacts: map<Key, Artifact>
    var events: seq<InjectionEvent>
    var nextId: nat

    function Value(): Shared
      reads this
    {
      Shared(artifacts, events, nextId)
    }

    ghost predicate Valid()
      reads this
    {
      AllValid(artifacts)
    }

    constructor ()
      ensures Valid() && Value() == Shared(map[], [], 0)
    {
      artifacts, events, nextId := map[], [], 0;
    }

    /** `if needs_resize { artifacts.remove(&key) }` */
    method DropIfTooSmall(key: Key, header: Header, tooSmall: TooSmall)
      modifies this
      ensures Value() == old(Value()).(artifacts := Evict(old(artifacts), key, header, tooSmall))
    {
      if key in artifacts && artifacts[key].NeedsResize(header, tooSmall) {
        artifacts := artifacts - {key};
      }
    }

    /** `artifacts.remove(&key)` */
    method Drop(key: Key)
      modifies this
      ensures Value() == old(Value()).(artifacts := old(artifacts) - {key})
    {
      artifacts := artifacts - {key};
    }

    /** The entry under key replaced in place. */
    method Put(key: Key, a: Artifact)
      modifies this
      ensures Value() == old(Value()).(artifacts := old(artifacts)[key := a])
    {
      artifacts := artifacts[key := a];
    }

    /** `event_loop_proxy.send_event(..)` */
    method Send(e: InjectionEvent)
      modifies this
      ensures Value() == old(Value()).(events := old(events) + [e])
    {
      events := events + [e];
    }

    /** A missing entry allocated by `Artifact::new` on the ready device; says whether one was. */
    method Create(key: Key, header: Header, gpu: GpuState) returns (created: Result<bool, Panics.Reason>)
      requires Valid() && key !in artifacts
      modifies this
      ensures Valid()
      ensures match Allocate(old(Value()), key, header, gpu)
        case Panic(why) => created == Panic(why) && Value() == old(Value())
        case Ok(None) => created == Ok(false) && Value() == old(Value())
        case Ok(Some(t)) => created == Ok(true) && Value() == t
    {
      if !gpu.device {
        return Ok(false);
      }
      created := Insert(key, New(header, nextId, nextId + 1));
    }

    /** `artifacts.insert(key, artifact)` when `Artifact::new` made one. */
    method Insert(key: Key, made: Result<Option<Artifact>, Panics.Reason>) returns (created: Result<bool, Panics.Reason>)
      requires Valid() && key !in artifacts
      requires made.Ok? && made.value.Some? ==> made.value.value.Valid()
      modifies this
      ensures Valid()
      ensures match Inserted(old(Value()), key, made)
        case Panic(why) => created == Panic(why) && Value() == old(Value())
        case Ok(None) => created == Ok(false) && Value() == old(Value())
        case Ok(Some(t)) => created == Ok(true) && Value() == t
    {
      match made
      case Panic(why) =>
        created := Panic(why);
      case Ok(None) =>
        created := Ok(false);
      case Ok(Some(a)) =>
        artifacts, nextId := artifacts[key := a], nextId + 2;
        created := Ok(true);
    }
  }
}
