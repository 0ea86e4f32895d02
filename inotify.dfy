/**
 * `injector/inotify.rs`: the producer that hands the injector every file the kernel reports
 * written or deleted in the watched directory, until the exit sentinel shows up.
 */
module Inotify {
  import opened Wrappers
  import opened Keys
  import opened Injectors
  import Panics

  /** An inotify event: its mask, and the name of the file inside the watched directory, if any. */
  datatype Event = Event(mask: bv32, name: Option<string>)

  /** `EventMask::CLOSE_WRITE` and `EventMask::DELETE`, as the kernel numbers them. */
  const CloseWrite: bv32 := 0x8
  const Delete: bv32 := 0x200

  /** The file the exit watcher creates in the watched directory. */
  const Sentinel: string := "exit_sentinel"

  /** How the loop stops: the sentinel was seen, or an event without a name made it panic. */
  datatype Ending = Exited | Panicked(reason: Panics.Reason)

  /** Where an event, or many, leave the producer: the injector, the events sent, and why it stopped, if it did. */
  datatype Handled<S> = Handled(state: Sending<S>, stop: Option<Ending>)

  /** What a call returned, sent to the window thread when it is a key. */
  function Notify(events: seq<InjectionEvent>, key: Option<Key>, make: Key -> InjectionEvent): (e: seq<InjectionEvent>)
    ensures key.None? ==> e == events
    ensures key.Some? ==> e == events + [make(key.value)]
  {
    if key.Some? then events + [make(key.value)] else events
  }

  /**
   * One event of a batch. The sentinel ends the loop before anything else; an event without a
   * name panics; `CLOSE_WRITE` calls `add` and `DELETE` calls `remove` once on the named file,
   * each announcing the key it returns; any other mask, a combination included, calls neither.
   */
  function Dispatch<S>(t: Sending<S>, dir: string, e: Event, add: Call<S>, remove: Call<S>): (r: Handled<S>)
    ensures e.name == Some(Sentinel) ==> r == Handled(t, Some(Ending.Exited))
    ensures e.name.None? ==> r == Handled(t, Some(Panicked(Panics.UnnamedEvent)))
    ensures r.stop.None? <==> e.name.Some? && e.name.value != Sentinel
    ensures r.stop.None? && e.mask != CloseWrite && e.mask != Delete ==> r.state == t
    ensures r.stop.None? && e.mask == CloseWrite ==>
      var a := add(t.injector, Path(dir, e.name.value));
      r.state.injector == a.0 && (a.1.None? ==> r.state.events == t.events)
      && (a.1.Some? ==> r.state.events == t.events + [Add(a.1.value)])
    ensures r.stop.None? && e.mask == Delete ==>
      var a := remove(t.injector, Path(dir, e.name.value));
      r.state.injector == a.0 && (a.1.None? ==> r.state.events == t.events)
      && (a.1.Some? ==> r.state.events == t.events + [Remove(a.1.value)])
  {
    if e.name == Some(Sentinel) then Handled(t, Some(Ending.Exited))
    else if e.name.None? then Handled(t, Some(Panicked(Panics.UnnamedEvent)))
    else
      var path := Path(dir, e.name.value);
      if e.mask == CloseWrite then
        var a := add(t.injector, path);
        Handled(Sending(a.0, Notify(t.events, a.1, k => Add(k))), None)
      else if e.mask == Delete then
        var a := remove(t.injector, path);
        Handled(Sending(a.0, Notify(t.events, a.1, k => Remove(k))), None)
      else Handled(t, None)
  }

  /** The events of a batch, one after another, until one of them stops the loop. */
  function DispatchAll<S>(t: Sending<S>, dir: string, events: seq<Event>, add: Call<S>, remove: Call<S>): (r: Handled<S>)
    decreases |events|
  {
    if events == [] then Handled(t, None)
    else
      var h := Dispatch(t, dir, events[0], add, remove);
      if h.stop.Some? then h else DispatchAll(h.state, dir, events[1..], add, remove)
  }

  /** The batches `read_events_blocking` returns, one after another, until an event stops the loop. */
  function RunBatches<S>(t: Sending<S>, dir: string, batches: seq<seq<Event>>, add: Call<S>, remove: Call<S>): (r: Handled<S>)
    decreases |batches|
  {
    if batches == [] then Handled(t, None)
    else
      var h := DispatchAll(t, dir, batches[0], add, remove);
      if h.stop.Some? then h else RunBatches(h.state, dir, batches[1..], add, remove)
  }

  /** All the events of the batches, in the order they were read. */
  function Concat(batches: seq<seq<Event>>): seq<Event>
  {
    if batches == [] then [] else batches[0] + Concat(batches[1..])
  }

  /** Events are handled in order: the events after `a` are handled where `a` left off, unless `a` stopped the loop. */
  lemma {:induction false} DispatchAppend<S>(t: Sending<S>, dir: string, a: seq<Event>, b: seq<Event>, add: Call<S>, remove: Call<S>)
    ensures var h := DispatchAll(t, dir, a, add, remove);
      DispatchAll(t, dir, a + b, add, remove)
      == if h.stop.Some? then h else DispatchAll(h.state, dir, b, add, remove)
    decreases |a|
  {
    if a == [] {
      assert a + b == b;
    } else {
      assert (a + b)[0] == a[0] && (a + b)[1..] == a[1..] + b;
      var h := Dispatch(t, dir, a[0], add, remove);
      if h.stop.None? {
        DispatchAppend(h.state, dir, a[1..], b, add, remove);
      }
    }
  }

  /** Events already sent stay sent: the loop only appends to the channel. */
  lemma {:induction false} DispatchAllExtends<S>(t: Sending<S>, dir: string, events: seq<Event>, add: Call<S>, remove: Call<S>)
    ensures t.events <= DispatchAll(t, dir, events, add, remove).state.events
    decreases |events|
  {
    if events != [] {
      var h := Dispatch(t, dir, events[0], add, remove);
      if h.stop.None? {
        DispatchAllExtends(h.state, dir, events[1..], add, remove);
      }
    }
  }

  /** Where one batch ends and the next begins makes no difference. */
  lemma {:induction false} RunIsFlat<S>(t: Sending<S>, dir: string, batches: seq<seq<Event>>, add: Call<S>, remove: Call<S>)
    ensures RunBatches(t, dir, batches, add, remove) == DispatchAll(t, dir, Concat(batches), add, remove)
    decreases |batches|
  {
    if batches != [] {
      DispatchAppend(t, dir, batches[0], Concat(batches[1..]), add, remove);
      var h := DispatchAll(t, dir, batches[0], add, remove);
      if h.stop.None? {
        RunIsFlat(h.state, dir, batches[1..], add, remove);
      }
    }
  }

  /** Once the sentinel arrives nothing after it is handled, and the loop exits where it was. */
  lemma SentinelEndsTheLoop<S>(t: Sending<S>, dir: string, before: seq<Event>, mask: bv32, after: seq<Event>,
                               add: Call<S>, remove: Call<S>)
    ensures var h := DispatchAll(t, dir, before, add, remove);
      DispatchAll(t, dir, before + [Event(mask, Some(Sentinel))] + after, add, remove)
      == if h.stop.Some? then h else Handled(h.state, Some(Ending.Exited))
  {
    var e := Event(mask, Some(Sentinel));
    assert before + [e] + after == before + ([e] + after);
    DispatchAppend(t, dir, before, [e] + after, add, remove);
    assert ([e] + after)[0] == e;
  }

  /**
   * The dispatch loop, over the batches the kernel returns: the injector's state after it, the
   * events sent to the window thread, and why it stopped (`None` once the batches given ran out).
   */
  method Run<S>(dir: string, batches: seq<seq<Event>>, add: Call<S>, remove: Call<S>, s0: S)
    returns (s: S, sent: seq<InjectionEvent>, stop: Option<Ending>)
    ensures Handled(Sending(s, sent), stop) == RunBatches(Sending(s0, []), dir, batches, add, remove)
  {
    s, sent, stop := s0, [], None;
    var i := 0;
    while i < |batches|
      invariant 0 <= i <= |batches|
      invariant RunBatches(Sending(s0, []), dir, batches, add, remove)
        == RunBatches(Sending(s, sent), dir, batches[i..], add, remove)
      invariant stop.None?
    {
      assert batches[i..][0] == batches[i] && batches[i..][1..] == batches[i + 1..];
      s, sent, stop := Batch(dir, batches[i], add, remove, s, sent);
      if stop.Some? {
        return;
      }
      i := i + 1;
    }
  }

  /** The loop over one batch of events. */
  method Batch<S>(dir: string, events: seq<Event>, add: Call<S>, remove: Call<S>, s0: S, sent0: seq<InjectionEvent>)
    returns (s: S, sent: seq<InjectionEvent>, stop: Option<Ending>)
    ensures Handled(Sending(s, sent), stop) == DispatchAll(Sending(s0, sent0), dir, events, add, remove)
  {
    s, sent, stop := s0, sent0, None;
    var j := 0;
    while j < |events|
      invariant 0 <= j <= |events|
      invariant DispatchAll(Sending(s0, sent0), dir, events, add, remove)
        == DispatchAll(Sending(s, sent), dir, events[j..], add, remove)
    {
      assert events[j..][0] == events[j] && events[j..][1..] == events[j + 1..];
      var e := events[j];
      if e.name == Some(Sentinel) {
        return s, sent, Some(Ending.Exited);
      }
      if e.name.None? {
        return s, sent, Some(Panicked(Panics.UnnamedEvent));
      }
      var path := Path(dir, e.name.value);
      if e.mask == CloseWrite {
        var a := add(s, path);
        s := a.0;
        if a.1.Some? {
          sent := sent + [Add(a.1.value)];
        }
      } else if e.mask == Delete {
        var a := remove(s, path);
        s := a.0;
        if a.1.Some? {
          sent := sent + [Remove(a.1.value)];
        }
      }
      j := j + 1;
    }
  }
}
