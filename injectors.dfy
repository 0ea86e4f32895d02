/**
 * `injector/mod.rs`: the `Injector` interface as the producers see it, and the vocabulary of
 * the traces the producers leave.
 */
module Injectors {
  import opened Wrappers
  import opened Keys
  import PlyNames
  import Listing

  /**
   * `Injector::add` or `Injector::remove` as a producer calls it: on the injector's state (the
   * table it shares, for an injector that keeps one) and a path, the state it leaves and the
   * key it returns.
   */
  type Call<!S> = (S, Path) -> (S, Option<Key>)

  /** The injector's state, and the events a producer has sent to the window thread so far. */
  datatype Sending<S> = Sending(injector: S, events: seq<InjectionEvent>)

  /** One path a producer offered to `add`, and the key `add` returned for it. */
  datatype Offered = Offered(path: Path, key: Option<Key>)

  /** How a producer's loop stops: the listings given ran out, or the exit signal arrived. */
  datatype Status = Exhausted | Exited

  /** What a producer did: the offers in order, the injector's state, how it stopped, and the waits counted by then. */
  datatype Played<S> = Played(trace: seq<Offered>, state: S, status: Status, waits: nat)

  function Then<S>(head: seq<Offered>, r: Played<S>): (p: Played<S>)
    ensures p.state == r.state && p.status == r.status && p.waits == r.waits && p.trace == head + r.trace
  {
    r.(trace := head + r.trace)
  }

  lemma ThenThen<S>(a: seq<Offered>, b: seq<Offered>, r: Played<S>)
    ensures Then(a, Then(b, r)) == Then(a + b, r)
  {
    assert a + (b + r.trace) == (a + b) + r.trace;
  }

  /** How many offers `add` accepted. */
  function Accepted(trace: seq<Offered>): nat
  {
    if trace == [] then 0 else (if trace[0].key.Some? then 1 else 0) + Accepted(trace[1..])
  }

  lemma {:induction false} AcceptedAppend(a: seq<Offered>, b: seq<Offered>)
    ensures Accepted(a + b) == Accepted(a) + Accepted(b)
  {
    if a != [] {
      assert (a + b)[0] == a[0];
      assert (a + b)[1..] == a[1..] + b;
      AcceptedAppend(a[1..], b);
    } else {
      assert a + b == b;
    }
  }

  /** The paths of a trace, in the order they were offered. */
  function PathsOf(trace: seq<Offered>): (paths: seq<Path>)
    ensures |paths| == |trace|
    ensures forall i :: 0 <= i < |trace| ==> paths[i] == trace[i].path
  {
    seq(|trace|, i requires 0 <= i < |trace| => trace[i].path)
  }

  lemma PathsOfAppend(a: seq<Offered>, b: seq<Offered>)
    ensures PathsOf(a + b) == PathsOf(a) + PathsOf(b)
  {
    assert forall i :: 0 <= i < |a + b| ==> PathsOf(a + b)[i] == (PathsOf(a) + PathsOf(b))[i];
  }

  /** All the paths of successive passes, one pass after the other. */
  function Flatten(passes: seq<seq<Path>>): seq<Path>
  {
    if passes == [] then [] else passes[0] + Flatten(passes[1..])
  }

  /**
   * A trace's shape: the waits counted are one per accepted offer, and when the exit signal
   * ended the trace it did so during wait number `exitAt`, the one after its last offer, which
   * `add` accepted; otherwise no more than `exitAt` waits passed.
   */
  predicate Ends<S>(r: Played<S>, waits: nat, exitAt: nat)
  {
    r.waits == waits + Accepted(r.trace)
    && (r.status == Exited ==> r.trace != [] && r.trace[|r.trace| - 1].key.Some? && r.waits == exitAt + 1)
    && (r.status == Exhausted ==> r.waits <= exitAt)
  }

  lemma ThenEnds<S>(head: seq<Offered>, r: Played<S>, waits: nat, exitAt: nat)
    requires Ends(r, waits + Accepted(head), exitAt)
    ensures Ends(Then(head, r), waits, exitAt)
  {
    AcceptedAppend(head, r.trace);
    if r.trace != [] {
      assert (head + r.trace)[|head + r.trace| - 1] == r.trace[|r.trace| - 1];
    }
  }

  /** The producers' filter: `(?<instance>.+)\.(?<artifact>.+)\.ply` matches somewhere in the full path. */
  predicate Keeps(full: string)
  {
    PlyNames.LooseMatch(full)
  }

  /** One pass of a producer: the paths of the directory's entries the filter keeps, sorted. */
  function SortedPaths(dir: string, names: seq<string>): (paths: seq<Path>)
    ensures forall i :: 0 <= i < |paths| ==> paths[i].dir == dir && paths[i].name in names && Keeps(paths[i].FullPath())
    ensures forall x :: x in names && Keeps(Path(dir, x).FullPath()) ==> Path(dir, x) in paths
    ensures forall i, j :: 0 <= i < j < |paths| ==> Listing.LexLe(paths[i].name, paths[j].name)
  {
    var sorted := Listing.SortedPass(dir, names, Keeps);
    var paths := seq(|sorted|, i requires 0 <= i < |sorted| => Path(dir, sorted[i]));
    assert forall i :: 0 <= i < |sorted| ==> paths[i] == Path(dir, sorted[i]) && sorted[i] in sorted;
    forall x | x in names && Keeps(Path(dir, x).FullPath()) ensures Path(dir, x) in paths {
      var i :| 0 <= i < |sorted| && sorted[i] == x;
      assert paths[i] == Path(dir, x);
    }
    paths
  }

  /** The passes a producer makes over successive listings of its directory. */
  function Passes(dir: string, listings: seq<seq<string>>): (passes: seq<seq<Path>>)
    ensures |passes| == |listings|
    ensures forall i :: 0 <= i < |listings| ==> passes[i] == SortedPaths(dir, listings[i])
  {
    seq(|listings|, i requires 0 <= i < |listings| => SortedPaths(dir, listings[i]))
  }
}
