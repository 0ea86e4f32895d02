/**
 * `injector/sequence.rs`: the `Sequence` injector. It owns a table it never fills; `add` only
 * derives the key a file name stands for, and `remove` drops that key's entry.
 */
module InjectorSequence {
  import opened Wrappers
  import opened Keys
  import opened Tables
  import Injectors
  import InjectPlayback
  import PlyNames

  /** The key a file name stands for: no instance, and the artifact group of `PLY_RE`. */
  function KeyOf(name: string): (k: Option<Key>)
    ensures k.None? <==> PlyNames.Captures(name).None?
    ensures k.Some? ==> k.value.instance.None? && k.value.artifact == PlyNames.Captures(name).value.1
  {
    match PlyNames.Captures(name)
    case None => None
    case Some((_, artifact)) => Some(Key(None, artifact))
  }

  /** The canonical name of a frame of an artifact stands for the artifact alone, whatever the frame. */
  lemma KeyOfCanonical(digits: string, artifact: string)
    requires |digits| > 0 && PlyNames.DigitsBetween(digits, 0, |digits|)
    requires |artifact| > 0 && PlyNames.NoNewlineBetween(artifact, 0, |artifact|)
    ensures KeyOf(PlyNames.CanonicalName(digits, artifact)) == Some(Key(None, artifact))
  {
    PlyNames.CapturesCanonical(digits, artifact);
  }

  /** `Sequence::remove` on the shared table: a name that does not match changes nothing; otherwise only the key's entry goes. */
  function RemoveStep(s: Shared, path: Path): (r: (Shared, Option<Key>))
    ensures r.1 == KeyOf(path.FileName())
    ensures r.0.events == s.events && r.0.nextId == s.nextId
    ensures r.1.None? ==> r.0 == s
    ensures r.1.Some? ==> r.1.value !in r.0.artifacts
    ensures forall k :: r.1 != Some(k) ==> (k in r.0.artifacts <==> k in s.artifacts)
    ensures forall k :: r.1 != Some(k) && k in s.artifacts ==> r.0.artifacts[k] == s.artifacts[k]
  {
    match KeyOf(path.FileName())
    case None => (s, None)
    case Some(key) => (s.(artifacts := s.artifacts - {key}), Some(key))
  }

  /** A second `remove` of the same path leaves the table as the first did. */
  lemma RemoveIdempotent(s: Shared, path: Path)
    ensures var once := RemoveStep(s, path);
      RemoveStep(once.0, path) == once
  {
    var once := RemoveStep(s, path);
    if once.1.Some? {
      assert once.0.artifacts - {once.1.value} == once.0.artifacts;
    }
  }

  /** `remove` keeps a table with one entry per artifact name so, since it removes and never adds. */
  lemma RemoveKeepsOneEntryPerArtifact(s: Shared, path: Path)
    requires OneEntryPerArtifact(s.artifacts)
    ensures OneEntryPerArtifact(RemoveStep(s, path).0.artifacts)
  {
  }

  /** `Sequence` as the producers call it: `add` leaves the table alone, `remove` is `RemoveStep`. */
  function AddCall(): (c: Injectors.Call<Shared>)
  {
    InjectPlayback.Stateless((p: Path) => KeyOf(p.FileName()))
  }

  function RemoveCall(): (c: Injectors.Call<Shared>)
  {
    (s: Shared, path: Path) => RemoveStep(s, path)
  }

  /** Every offer of a trace got the key its file name stands for. */
  predicate KeyedByName(trace: seq<Injectors.Offered>)
  {
    forall i :: 0 <= i < |trace| ==> trace[i].key == KeyOf(trace[i].path.name)
  }

  /** A playback run fed to a `Sequence` leaves its table as it was, and each offer gets the name's key. */
  lemma RunLeavesTable(s: Shared, passes: seq<seq<Path>>, waits: nat, exitAt: nat)
    ensures var r := InjectPlayback.RunFrom(s, passes, waits, exitAt, AddCall());
      r.state == s && KeyedByName(r.trace)
  {
    var name := (p: Path) => KeyOf(p.FileName());
    InjectPlayback.RunStateless(s, passes, waits, exitAt, name);
  }

  /** A `Sequence` with its table. */
  class Sequence {
    const table: Table

    /** `Sequence::new`: a fresh, empty table. */
    constructor ()
      ensures fresh(table) && table.Valid() && table.Value() == Shared(map[], [], 0)
    {
      table := new Table();
    }

    /** `Injector::add`: only the key is derived; no entry is made and nothing is sent. */
    method Add(path: Path) returns (key: Option<Key>)
      ensures key == KeyOf(path.FileName())
    {
      var capture := PlyNames.Captures(path.FileName());
      if capture.None? {
        return None;
      }
      key := Some(Key(None, capture.value.1));
    }

    /** `Injector::remove`: the key's entry dropped; the `Remove` event stays unsent. */
    method Remove(path: Path) returns (key: Option<Key>)
      modifies table
      ensures (table.Value(), key) == RemoveStep(old(table.Value()), path)
      ensures old(table.Valid()) ==> table.Valid()
    {
      var capture := PlyNames.Captures(path.FileName());
      if capture.None? {
        return None;
      }
      var k := Key(None, capture.value.1);
      table.Drop(k);
      key := Some(k);
    }
  }
}
