/**
 * `inject/playback.rs`: the producer that offers the directory's files to an injector one by
 * one in sorted order, waits one tick after each file the injector takes, and starts over
 * when the listing is exhausted.
 */
module InjectPlayback {
  import opened Wrappers
  import opened Keys
  import opened Injectors

  /**
   * One pass over its sorted paths, with waits already counted: each path offered to `add`;
   * a path `add` refuses is skipped at once; after one `add` accepts comes a wait, during
   * which the exit signal arrives when it is wait number `exitAt`.
   */
  function PassFrom<S>(s: S, paths: seq<Path>, waits: nat, exitAt: nat, add: Call<S>): (r: Played<S>)
    decreases |paths|
  {
    if paths == [] then Played([], s, Exhausted, waits)
    else
      var added := add(s, paths[0]);
      var offer := Offered(paths[0], added.1);
      if added.1.None? then Then([offer], PassFrom(added.0, paths[1..], waits, exitAt, add))
      else if waits == exitAt then Played([offer], added.0, Exited, waits + 1)
      else Then([offer], PassFrom(added.0, paths[1..], waits + 1, exitAt, add))
  }

  /** The listing is read again after each pass that ran out. */
  function RunFrom<S>(s: S, passes: seq<seq<Path>>, waits: nat, exitAt: nat, add: Call<S>): (r: Played<S>)
    decreases |passes|
  {
    if passes == [] then Played([], s, Exhausted, waits)
    else
      var pass := PassFrom(s, passes[0], waits, exitAt, add);
      if pass.status == Exited then pass
      else Then(pass.trace, RunFrom(pass.state, passes[1..], pass.waits, exitAt, add))
  }

  /** A pass waits once per accepted offer, and the exit signal ends it during wait number `exitAt`. */
  lemma {:induction false} PassEnds<S>(s: S, paths: seq<Path>, waits: nat, exitAt: nat, add: Call<S>)
    requires waits <= exitAt
    ensures Ends(PassFrom(s, paths, waits, exitAt, add), waits, exitAt)
    decreases |paths|
  {
    if paths != [] {
      var added := add(s, paths[0]);
      var offer := Offered(paths[0], added.1);
      if added.1.None? || waits != exitAt {
        var w := if added.1.None? then waits else waits + 1;
        var rest := PassFrom(added.0, paths[1..], w, exitAt, add);
        assert PassFrom(s, paths, waits, exitAt, add) == Then([offer], rest);
        PassEnds(added.0, paths[1..], w, exitAt, add);
        assert Accepted([offer]) == w - waits;
        ThenEnds([offer], rest, waits, exitAt);
      } else {
        assert Accepted([offer]) == 1;
      }
    }
  }

  /** A pass offers its paths in order, all of them unless the exit signal cut it short. */
  lemma {:induction false} PassOffersInOrder<S>(s: S, paths: seq<Path>, waits: nat, exitAt: nat, add: Call<S>)
    ensures var r := PassFrom(s, paths, waits, exitAt, add);
      PathsOf(r.trace) <= paths && (r.status == Exhausted ==> PathsOf(r.trace) == paths)
    decreases |paths|
  {
    if paths != [] {
      var added := add(s, paths[0]);
      var offer := Offered(paths[0], added.1);
      if added.1.None? || waits != exitAt {
        var w := if added.1.None? then waits else waits + 1;
        var rest := PassFrom(added.0, paths[1..], w, exitAt, add);
        assert PassFrom(s, paths, waits, exitAt, add) == Then([offer], rest);
        PassOffersInOrder(added.0, paths[1..], w, exitAt, add);
        PathsOfAppend([offer], rest.trace);
        assert paths == [paths[0]] + paths[1..];
      }
    }
  }

  /** A whole run waits once per accepted offer, and the exit signal ends it during wait number `exitAt`. */
  lemma {:induction false} RunEnds<S>(s: S, passes: seq<seq<Path>>, waits: nat, exitAt: nat, add: Call<S>)
    requires waits <= exitAt
    ensures Ends(RunFrom(s, passes, waits, exitAt, add), waits, exitAt)
    decreases |passes|
  {
    if passes != [] {
      var pass := PassFrom(s, passes[0], waits, exitAt, add);
      PassEnds(s, passes[0], waits, exitAt, add);
      if pass.status == Exhausted {
        var rest := RunFrom(pass.state, passes[1..], pass.waits, exitAt, add);
        RunEnds(pass.state, passes[1..], pass.waits, exitAt, add);
        ThenEnds(pass.trace, rest, waits, exitAt);
      }
    }
  }

  /**
   * A run offers the paths of its passes one pass after the other, every pass starting again
   * from the first path, and all of them unless the exit signal cut it short.
   */
  lemma {:induction false} RunOffersInOrder<S>(s: S, passes: seq<seq<Path>>, waits: nat, exitAt: nat, add: Call<S>)
    ensures var r := RunFrom(s, passes, waits, exitAt, add);
      PathsOf(r.trace) <= Flatten(passes) && (r.status == Exhausted ==> PathsOf(r.trace) == Flatten(passes))
    decreases |passes|
  {
    if passes != [] {
      var pass := PassFrom(s, passes[0], waits, exitAt, add);
      PassOffersInOrder(s, passes[0], waits, exitAt, add);
      if pass.status == Exhausted {
        var rest := RunFrom(pass.state, passes[1..], pass.waits, exitAt, add);
        RunOffersInOrder(pass.state, passes[1..], pass.waits, exitAt, add);
        PathsOfAppend(pass.trace, rest.trace);
      }
    }
  }

  /** An injector whose `add` leaves its state alone and derives the key from the path only. */
  function Stateless<S>(key: Path -> Option<Key>): Call<S>
  {
    (s: S, p: Path) => (s, key(p))
  }

  /** Every offer of a trace got the key `key` derives from its path. */
  predicate KeyedBy(trace: seq<Offered>, key: Path -> Option<Key>)
  {
    forall i :: 0 <= i < |trace| ==> trace[i].key == key(trace[i].path)
  }

  lemma KeyedByAppend(a: seq<Offered>, b: seq<Offered>, key: Path -> Option<Key>)
    requires KeyedBy(a, key) && KeyedBy(b, key)
    ensures KeyedBy(a + b, key)
  {
    assert forall i :: |a| <= i < |a + b| ==> (a + b)[i] == b[i - |a|];
  }

  /** A pass fed to such an injector leaves its state as it was, and each offer gets the path's key. */
  lemma {:induction false} PassStateless<S>(s: S, paths: seq<Path>, waits: nat, exitAt: nat, key: Path -> Option<Key>)
    ensures var r := PassFrom(s, paths, waits, exitAt, Stateless(key));
      r.state == s && KeyedBy(r.trace, key)
    decreases |paths|
  {
    if paths != [] {
      var offer := Offered(paths[0], key(paths[0]));
      assert Stateless(key)(s, paths[0]) == (s, key(paths[0]));
      if offer.key.None? || waits != exitAt {
        var w := if offer.key.None? then waits else waits + 1;
        var rest := PassFrom(s, paths[1..], w, exitAt, Stateless(key));
        assert PassFrom(s, paths, waits, exitAt, Stateless(key)) == Then([offer], rest);
        PassStateless(s, paths[1..], w, exitAt, key);
        KeyedByAppend([offer], rest.trace, key);
      }
    }
  }

  /** The same of a whole run over many listings. */
  lemma {:induction false} RunStateless<S>(s: S, passes: seq<seq<Path>>, waits: nat, exitAt: nat, key: Path -> Option<Key>)
    ensures var r := RunFrom(s, passes, waits, exitAt, Stateless(key));
      r.state == s && KeyedBy(r.trace, key)
    decreases |passes|
  {
    if passes != [] {
      var pass := PassFrom(s, passes[0], waits, exitAt, Stateless(key));
      PassStateless(s, passes[0], waits, exitAt, key);
      if pass.status == Exhausted {
        var rest := RunFrom(s, passes[1..], pass.waits, exitAt, Stateless(key));
        RunStateless(s, passes[1..], pass.waits, exitAt, key);
        KeyedByAppend(pass.trace, rest.trace, key);
      }
    }
  }

  /**
   * `run`, over the listings its passes read, with `exitAt` saying during which wait the exit
   * signal arrives: the offers it made, how it stopped, and the injector's state after.
   */
  method Run<S>(dir: string, listings: seq<seq<string>>, exitAt: nat, add: Call<S>, s0: S)
    returns (trace: seq<Offered>, status: Status, s: S)
    ensures var r := RunFrom(s0, Passes(dir, listings), 0, exitAt, add);
      trace == r.trace && status == r.status && s == r.state
  {
    ghost var passes := Passes(dir, listings);
    trace, s := [], s0;
    var waits := 0;
    var i := 0;
    while i < |listings|
      invariant 0 <= i <= |listings|
      invariant RunFrom(s0, passes, 0, exitAt, add) == Then(trace, RunFrom(s, passes[i..], waits, exitAt, add))
    {
      ghost var before, waits0 := s, waits;
      var paths := SortedPaths(dir, listings[i]);
      assert passes[i..][0] == paths && passes[i..][1..] == passes[i + 1..];
      var offers;
      offers, status, waits, s := Pass(paths, waits, exitAt, add, s);
      ghost var pass := Played(offers, s, status, waits);
      if status == Exited {
        assert RunFrom(before, passes[i..], waits0, exitAt, add) == pass;
        trace := trace + offers;
        return;
      }
      ghost var rest := RunFrom(s, passes[i + 1..], waits, exitAt, add);
      assert RunFrom(before, passes[i..], waits0, exitAt, add) == Then(offers, rest);
      ThenThen(trace, offers, rest);
      trace := trace + offers;
      i := i + 1;
    }
    status := Exhausted;
  }

  /** One pass of `run`: the loop over the sorted paths. */
  method Pass<S>(paths: seq<Path>, waits: nat, exitAt: nat, add: Call<S>, s0: S)
    returns (trace: seq<Offered>, status: Status, waits': nat, s: S)
    ensures Played(trace, s, status, waits') == PassFrom(s0, paths, waits, exitAt, add)
  {
    trace, waits', s := [], waits, s0;
    var j := 0;
    while j < |paths|
      invariant 0 <= j <= |paths|
      invariant PassFrom(s0, paths, waits, exitAt, add) == Then(trace, PassFrom(s, paths[j..], waits', exitAt, add))
    {
      assert paths[j..][0] == paths[j] && paths[j..][1..] == paths[j + 1..];
      ghost var rest0 := PassFrom(s, paths[j..], waits', exitAt, add);
      var added := add(s, paths[j]);
      var offer := Offered(paths[j], added.1);
      s := added.0;
      if added.1.Some? {
        if waits' == exitAt {
          assert rest0 == Played([offer], s, Exited, waits' + 1);
          return trace + [offer], Exited, waits' + 1, s;
        }
        waits' := waits' + 1;
      }
      ghost var rest := PassFrom(s, paths[j + 1..], waits', exitAt, add);
      assert rest0 == Then([offer], rest);
      ThenThen(trace, [offer], rest);
      trace := trace + [offer];
      j := j + 1;
    }
    status := Exhausted;
  }
}
