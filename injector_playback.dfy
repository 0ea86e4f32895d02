/**
 * `injector/playback.rs`: the same sorted, restarting walk over the directory as
 * `inject/playback.rs`, except that each key `add` returns is announced to the window thread
 * with `Add(key)` before the wait.
 */
module InjectorPlayback {
  import opened Wrappers
  import opened Keys
  import opened Injectors
  import InjectPlayback

  /** The `Add` events a trace sends: one per accepted offer, in order. */
  function AddsOf(trace: seq<Offered>): (events: seq<InjectionEvent>)
    ensures |events| == Accepted(trace)
  {
    if trace == [] then []
    else (if trace[0].key.Some? then [Add(trace[0].key.value)] else []) + AddsOf(trace[1..])
  }

  lemma {:induction false} AddsOfAppend(a: seq<Offered>, b: seq<Offered>)
    ensures AddsOf(a + b) == AddsOf(a) + AddsOf(b)
  {
    if a != [] {
      assert (a + b)[0] == a[0];
      assert (a + b)[1..] == a[1..] + b;
      AddsOfAppend(a[1..], b);
    } else {
      assert a + b == b;
    }
  }

  /** `add` on the injector, followed by `Add(key)` on the channel when it returned a key. */
  function Notifying<S>(add: Call<S>): Call<Sending<S>>
  {
    (t: Sending<S>, p: Path) =>
      var r := add(t.injector, p);
      (Sending(r.0, t.events + (if r.1.Some? then [Add(r.1.value)] else [])), r.1)
  }

  /** The offer is the one the bare `add` makes, and the event sent is the one `AddsOf` counts for it. */
  lemma NotifyingStep<S>(add: Call<S>, t: Sending<S>, p: Path)
    ensures var c := Notifying(add)(t, p);
      c.1 == add(t.injector, p).1 && c.0.injector == add(t.injector, p).0
      && c.0.events == t.events + AddsOf([Offered(p, add(t.injector, p).1)])
  {
    assert [Offered(p, add(t.injector, p).1)][1..] == [];
  }

  /** A pass makes the offers the bare walk makes, stops the same way, and leaves the injector the same. */
  lemma {:induction false} PassAsBare<S>(t: Sending<S>, paths: seq<Path>, waits: nat, exitAt: nat, add: Call<S>)
    ensures var r := InjectPlayback.PassFrom(t, paths, waits, exitAt, Notifying(add));
      var q := InjectPlayback.PassFrom(t.injector, paths, waits, exitAt, add);
      r.trace == q.trace && r.status == q.status && r.waits == q.waits && r.state.injector == q.state
    decreases |paths|
  {
    if paths != [] {
      var added := Notifying(add)(t, paths[0]);
      NotifyingStep(add, t, paths[0]);
      if added.1.None? || waits != exitAt {
        var w := if added.1.None? then waits else waits + 1;
        PassAsBare(added.0, paths[1..], w, exitAt, add);
      }
    }
  }

  /** Beside that, a pass sends one `Add(key)` per accepted offer, in order. */
  lemma {:induction false} PassSendsAdds<S>(t: Sending<S>, paths: seq<Path>, waits: nat, exitAt: nat, add: Call<S>)
    ensures var r := InjectPlayback.PassFrom(t, paths, waits, exitAt, Notifying(add));
      r.state.events == t.events + AddsOf(r.trace)
    decreases |paths|
  {
    if paths != [] {
      var added := Notifying(add)(t, paths[0]);
      NotifyingStep(add, t, paths[0]);
      var offer := Offered(paths[0], added.1);
      if added.1.None? || waits != exitAt {
        var w := if added.1.None? then waits else waits + 1;
        var rest := InjectPlayback.PassFrom(added.0, paths[1..], w, exitAt, Notifying(add));
        assert InjectPlayback.PassFrom(t, paths, waits, exitAt, Notifying(add)) == Then([offer], rest);
        PassSendsAdds(added.0, paths[1..], w, exitAt, add);
        AddsOfAppend([offer], rest.trace);
      }
    }
  }

  /** The same of a whole run over many listings. */
  lemma {:induction false} RunAsBare<S>(t: Sending<S>, passes: seq<seq<Path>>, waits: nat, exitAt: nat, add: Call<S>)
    ensures var r := InjectPlayback.RunFrom(t, passes, waits, exitAt, Notifying(add));
      var q := InjectPlayback.RunFrom(t.injector, passes, waits, exitAt, add);
      r.trace == q.trace && r.status == q.status && r.waits == q.waits && r.state.injector == q.state
    decreases |passes|
  {
    if passes != [] {
      var pass := InjectPlayback.PassFrom(t, passes[0], waits, exitAt, Notifying(add));
      PassAsBare(t, passes[0], waits, exitAt, add);
      if pass.status == Exhausted {
        RunAsBare(pass.state, passes[1..], pass.waits, exitAt, add);
      }
    }
  }

  lemma {:induction false} RunSendsAdds<S>(t: Sending<S>, passes: seq<seq<Path>>, waits: nat, exitAt: nat, add: Call<S>)
    ensures var r := InjectPlayback.RunFrom(t, passes, waits, exitAt, Notifying(add));
      r.state.events == t.events + AddsOf(r.trace)
    decreases |passes|
  {
    if passes != [] {
      var pass := InjectPlayback.PassFrom(t, passes[0], waits, exitAt, Notifying(add));
      PassSendsAdds(t, passes[0], waits, exitAt, add);
      if pass.status == Exhausted {
        var rest := InjectPlayback.RunFrom(pass.state, passes[1..], pass.waits, exitAt, Notifying(add));
        RunSendsAdds(pass.state, passes[1..], pass.waits, exitAt, add);
        AddsOfAppend(pass.trace, rest.trace);
      }
    }
  }

  /**
   * `run`, over the listings its passes read, with `exitAt` saying during which wait the exit
   * signal arrives: the offers it made, how it stopped, the injector's state after, and the
   * events it sent.
   */
  method Run<S>(dir: string, listings: seq<seq<string>>, exitAt: nat, add: Call<S>, s0: S)
    returns (trace: seq<Offered>, status: Status, s: S, events: seq<InjectionEvent>)
    ensures var r := InjectPlayback.RunFrom(Sending(s0, []), Passes(dir, listings), 0, exitAt, Notifying(add));
      trace == r.trace && status == r.status && Sending(s, events) == r.state
  {
    ghost var notify := Notifying(add);
    ghost var passes := Passes(dir, listings);
    trace, s, events := [], s0, [];
    var waits := 0;
    var i := 0;
    while i < |listings|
      invariant 0 <= i <= |listings|
      invariant InjectPlayback.RunFrom(Sending(s0, []), passes, 0, exitAt, notify)
        == Then(trace, InjectPlayback.RunFrom(Sending(s, events), passes[i..], waits, exitAt, notify))
    {
      ghost var before, waits0 := Sending(s, events), waits;
      var paths := SortedPaths(dir, listings[i]);
      assert passes[i..][0] == paths && passes[i..][1..] == passes[i + 1..];
      var offers;
      offers, status, waits, s, events := Pass(paths, waits, exitAt, add, s, events);
      ghost var pass := Played(offers, Sending(s, events), status, waits);
      if status == Exited {
        assert InjectPlayback.RunFrom(before, passes[i..], waits0, exitAt, notify) == pass;
        trace := trace + offers;
        return;
      }
      ghost var rest := InjectPlayback.RunFrom(Sending(s, events), passes[i + 1..], waits, exitAt, notify);
      assert InjectPlayback.RunFrom(before, passes[i..], waits0, exitAt, notify) == Then(offers, rest);
      ThenThen(trace, offers, rest);
      trace := trace + offers;
      i := i + 1;
    }
    status := Exhausted;
  }

  /** One pass of `run`: the loop over the sorted paths, sending `Add(key)` before each wait. */
  method Pass<S>(paths: seq<Path>, waits: nat, exitAt: nat, add: Call<S>, s0: S, events0: seq<InjectionEvent>)
    returns (trace: seq<Offered>, status: Status, waits': nat, s: S, events: seq<InjectionEvent>)
    ensures Played(trace, Sending(s, events), status, waits')
      == InjectPlayback.PassFrom(Sending(s0, events0), paths, waits, exitAt, Notifying(add))
  {
    ghost var notify := Notifying(add);
    trace, waits', s, events := [], waits, s0, events0;
    var j := 0;
    while j < |paths|
      invariant 0 <= j <= |paths|
      invariant InjectPlayback.PassFrom(Sending(s0, events0), paths, waits, exitAt, notify)
        == Then(trace, InjectPlayback.PassFrom(Sending(s, events), paths[j..], waits', exitAt, notify))
    {
      assert paths[j..][0] == paths[j] && paths[j..][1..] == paths[j + 1..];
      ghost var rest0 := InjectPlayback.PassFrom(Sending(s, events), paths[j..], waits', exitAt, notify);
      ghost var sent := notify(Sending(s, events), paths[j]);
      NotifyingStep(add, Sending(s, events), paths[j]);
      var added := add(s, paths[j]);
      var offer := Offered(paths[j], added.1);
      assert [offer][1..] == [];
      assert AddsOf([offer]) == if added.1.Some? then [Add(added.1.value)] else [];
      s := added.0;
      if added.1.Some? {
        events := events + [Add(added.1.value)];
      }
      assert sent.1 == added.1;
      assert sent.0.injector == s;
      assert sent.0.events == events;
      assert sent == (Sending(s, events), added.1);
      if added.1.Some? {
        if waits' == exitAt {
          assert rest0 == Played([offer], Sending(s, events), Exited, waits' + 1);
          return trace + [offer], Exited, waits' + 1, s, events;
        }
        waits' := waits' + 1;
      }
      ghost var rest := InjectPlayback.PassFrom(Sending(s, events), paths[j + 1..], waits', exitAt, notify);
      assert rest0 == Then([offer], rest);
      ThenThen(trace, [offer], rest);
      trace := trace + [offer];
      j := j + 1;
    }
    status := Exhausted;
  }
}
