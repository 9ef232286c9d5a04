/** The monitoring command `mon` of example.py:53-120: start a monitor
    session on a washer, poll until a non-empty frame arrives, rewrite its
    values into display labels in place, publish it once, and tear the session
    down on every way out of the loop.

    The network, the sleep between polls and the catalog search are not part
    of this model: a run is described by whether the device is a washer,
    whether `monitor_start` succeeds, and the sequence of things that happen
    at each turn of the polling loop. The result is the trace of visible
    actions and the way `mon` ends. */
module Monitor {
  import opened Wrappers
  import opened Display
  import opened Washer

  /** The catalog search of example.py:106-108: the label found under
      `Value.<key>.option."<code>"`, if any. */
  type Lookup = (string, string) -> Option<string>

  // ---------------------------------------------------------------------
  // The in-place pass over a frame (example.py:105-113)
  // ---------------------------------------------------------------------

  /** The value a key ends up with: the display form of the catalog label
      when there is one, and the raw code otherwise. */
  function NormalisedValue(lookup: Lookup, key: string, raw: string): (r: string)
    ensures lookup(key, raw).None? ==> r == raw
    ensures lookup(key, raw).Some? ==> r == Normalise(key, lookup(key, raw).value) && '_' !in r
  {
    match lookup(key, raw)
    case None => raw
    case Some(text) => Normalise(key, text)
  }

  /** The frame after the pass. Every key is kept; an unmatched value is left
      as it was; a matched one becomes a label without underscores. */
  function NormalisedFrame(lookup: Lookup, state: Frame): (r: Frame)
    ensures r.Keys == state.Keys
    ensures forall k :: k in state && lookup(k, state[k]).None? ==> r[k] == state[k]
    ensures forall k :: k in state && lookup(k, state[k]).Some? ==>
      r[k] == Normalise(k, lookup(k, state[k]).value) && '_' !in r[k]
  {
    map k | k in state :: NormalisedValue(lookup, k, state[k])
  }

  /** The loop over `state.keys()` that rewrites `state[key]` as it goes. Each
      step reads and writes only its own key, so the order in which the keys
      are visited does not matter. */
  method NormaliseInPlace(state: Frame, lookup: Lookup) returns (out: Frame)
    ensures out == NormalisedFrame(lookup, state)
  {
    out := state;
    var todo := state.Keys;
    while todo != {}
      invariant todo <= state.Keys
      invariant out.Keys == state.Keys
      invariant forall k :: k in todo ==> out[k] == state[k]
      invariant forall k :: k in state && k !in todo ==> out[k] == NormalisedValue(lookup, k, state[k])
      decreases |todo|
    {
      var key :| key in todo;
      match lookup(key, out[key]) {
        case Some(text) =>
          out := out[key := Normalise(key, text)];
        case None =>
      }
      todo := todo - {key};
    }
  }

  // ---------------------------------------------------------------------
  // The control skeleton of `mon` (example.py:81-120)
  // ---------------------------------------------------------------------

  /** The topic the frame is published under. */
  const Topic: string := "stat/washer"

  /** The visible actions of a run, in order. */
  datatype Action =
    | Connect                                // mclient.connect
    | MonitorStart                           // washer.monitor_start
    | Poll                                   // washer.poll
    | Publish(topic: string, payload: Frame) // mclient.publish
    | MonitorStop                            // washer.monitor_stop
    | Disconnect                             // mclient.disconnect

  /** What happens at one turn of the polling loop: `poll` returns a frame or
      nothing, a keyboard interrupt arrives during the sleep before the poll,
      or `poll` raises some other exception. */
  datatype LoopEvent = Tick(frame: Option<Frame>) | Interrupt | PollError

  /** How `mon` ends. `StillPolling` means the given events ran out while the
      loop was still waiting for data. */
  datatype Exit = NotWasher | Unavailable | Delivered | Interrupted | Raised | StillPolling

  /** A turn that does not leave the loop: `if state:` is false for `None`
      and for an empty frame. */
  predicate NoData(e: LoopEvent) {
    e.Tick? && (e.frame.None? || e.frame.value == map[])
  }

  /** The actions of a run and the way it ends. */
  datatype Run = Run(actions: seq<Action>, exit: Exit)

  /** The `while True` loop inside the `try` (example.py:99-117). */
  function PollLoop(lookup: Lookup, events: seq<LoopEvent>): (r: Run)
    ensures r.exit in {StillPolling, Interrupted, Raised, Delivered}
    ensures |r.actions| <= |events| + 1
    decreases |events|
  {
    if events == [] then Run([], StillPolling)
    else if NoData(events[0]) then
      var rest := PollLoop(lookup, events[1..]);
      Run([Poll] + rest.actions, rest.exit)
    else match events[0]
      case Interrupt => Run([], Interrupted)
      case PollError => Run([Poll], Raised)
      case Tick(f) => Run([Poll, Publish(Topic, NormalisedFrame(lookup, f.value))], Delivered)
  }

  /** The whole of `mon` after the device lookup: connect; stop at once for a
      device that is not a washer or whose monitor cannot start; otherwise
      run the loop and, once it is left, stop the monitor and disconnect. */
  function MonSpec(isWasher: bool, startOk: bool, lookup: Lookup, events: seq<LoopEvent>): (r: Run)
    ensures |r.actions| > 0 && r.actions[0] == Connect
    ensures r.exit == NotWasher <==> !isWasher
    ensures r.exit == Unavailable <==> isWasher && !startOk
    ensures isWasher ==> |r.actions| > 1 && r.actions[1] == MonitorStart
  {
    if !isWasher then Run([Connect], NotWasher)
    else if !startOk then Run([Connect, MonitorStart], Unavailable)
    else
      var loop := PollLoop(lookup, events);
      var teardown := if loop.exit == StillPolling then [] else [MonitorStop, Disconnect];
      Run([Connect, MonitorStart] + loop.actions + teardown, loop.exit)
  }

  /** `mon` itself, with its polling loop. */
  method Mon(isWasher: bool, startOk: bool, lookup: Lookup, events: seq<LoopEvent>)
    returns (trace: seq<Action>, exit: Exit)
    ensures trace == MonSpec(isWasher, startOk, lookup, events).actions
    ensures exit == MonSpec(isWasher, startOk, lookup, events).exit
  {
    trace := [Connect];
    if !isWasher {
      return trace, NotWasher;
    }
    trace := trace + [MonitorStart];
    assert trace == [Connect, MonitorStart];
    if !startOk {
      return trace, Unavailable;
    }
    var polled: seq<Action> := [];
    var i := 0;
    exit := StillPolling;
    assert events[i..] == events;
    assert polled + PollLoop(lookup, events).actions == PollLoop(lookup, events).actions;
    while i < |events| && exit == StillPolling
      invariant 0 <= i <= |events|
      invariant exit == StillPolling ==>
        PollLoop(lookup, events).actions == polled + PollLoop(lookup, events[i..]).actions &&
        PollLoop(lookup, events).exit == PollLoop(lookup, events[i..]).exit
      invariant exit != StillPolling ==>
        PollLoop(lookup, events).actions == polled && PollLoop(lookup, events).exit == exit
      decreases |events| - i
    {
      var rest := PollLoop(lookup, events[i..]);
      var next := PollLoop(lookup, events[i + 1..]);
      assert events[i..][0] == events[i] && events[i..][1..] == events[i + 1..];
      match events[i] {
        case Interrupt =>
          assert rest.actions == [] && rest.exit == Interrupted;
          assert polled + rest.actions == polled;
          exit := Interrupted;
        case PollError =>
          polled := polled + [Poll];
          exit := Raised;
        case Tick(state) =>
          if state.Some? && state.value != map[] {
            var shown := NormaliseInPlace(state.value, lookup);
            polled := polled + [Poll, Publish(Topic, shown)];
            exit := Delivered;
          } else {
            assert rest.actions == [Poll] + next.actions && rest.exit == next.exit;
            assert polled + rest.actions == (polled + [Poll]) + next.actions;
            polled := polled + [Poll];
          }
      }
      i := i + 1;
    }
    if exit == StillPolling {
      assert events[i..] == [];
      assert polled + [] == polled;
    }
    trace := trace + polled;
    if exit != StillPolling {
      trace := trace + [MonitorStop, Disconnect];
    } else {
      assert trace + [] == trace;
    }
  }

  // ---------------------------------------------------------------------
  // Properties of a run
  // ---------------------------------------------------------------------

  /** The loop polls, and its last action is the single publish exactly when
      it ends by delivering a frame. */
  lemma {:induction false} PollLoopShape(lookup: Lookup, events: seq<LoopEvent>)
    ensures var r := PollLoop(lookup, events);
      var t := r.actions;
      r.exit in {Delivered, Interrupted, Raised, StillPolling} &&
      (forall i :: 0 <= i < |t| - 1 ==> t[i] == Poll) &&
      (r.exit == Delivered <==> |t| > 0 && t[|t| - 1].Publish?) &&
      (|t| > 0 && r.exit != Delivered ==> t[|t| - 1] == Poll)
    decreases |events|
  {
    if events != [] && NoData(events[0]) {
      PollLoopShape(lookup, events[1..]);
    }
  }

  /** `n` polls. */
  function Polls(n: nat): (r: seq<Action>)
    ensures |r| == n && forall i :: 0 <= i < n ==> r[i] == Poll
  {
    if n == 0 then [] else Polls(n - 1) + [Poll]
  }

  lemma PollsCons(n: nat)
    requires n > 0
    ensures Polls(n) == [Poll] + Polls(n - 1)
  {
  }

  /** Turns without data only add a poll each; the loop goes on with the
      rest. */
  lemma {:induction false} PollLoopSkips(lookup: Lookup, events: seq<LoopEvent>, j: nat)
    requires j <= |events|
    requires forall i :: 0 <= i < j ==> NoData(events[i])
    ensures PollLoop(lookup, events).actions == Polls(j) + PollLoop(lookup, events[j..]).actions
    ensures PollLoop(lookup, events).exit == PollLoop(lookup, events[j..]).exit
    decreases j
  {
    if j == 0 {
      assert events[j..] == events;
      assert Polls(0) + PollLoop(lookup, events).actions == PollLoop(lookup, events).actions;
    } else {
      var tail := events[1..];
      assert forall i :: 0 <= i < j - 1 ==> NoData(tail[i]) by {
        forall i | 0 <= i < j - 1 ensures NoData(tail[i]) {
          assert tail[i] == events[i + 1];
        }
      }
      PollLoopSkips(lookup, tail, j - 1);
      assert tail[j - 1..] == events[j..];
      var after := PollLoop(lookup, events[j..]).actions;
      assert NoData(events[0]);
      assert PollLoop(lookup, events).actions == [Poll] + PollLoop(lookup, tail).actions;
      assert [Poll] + (Polls(j - 1) + after) == ([Poll] + Polls(j - 1)) + after;
      PollsCons(j);
    }
  }

  /** The first non-empty frame is the one published, after one poll per turn
      so far, with its values normalised; the loop then ends. */
  lemma FirstFramePublished(lookup: Lookup, events: seq<LoopEvent>, j: nat, f: Frame)
    requires j < |events| && events[j] == Tick(Some(f)) && f != map[]
    requires forall i :: 0 <= i < j ==> NoData(events[i])
    ensures PollLoop(lookup, events).actions == Polls(j + 1) + [Publish(Topic, NormalisedFrame(lookup, f))]
    ensures PollLoop(lookup, events).exit == Delivered
  {
    PollLoopSkips(lookup, events, j);
    assert Polls(j + 1) + [Publish(Topic, NormalisedFrame(lookup, f))]
      == Polls(j) + [Poll, Publish(Topic, NormalisedFrame(lookup, f))];
  }

  /** An interrupt before any data publishes nothing, and `mon` still stops
      the monitor and disconnects, last and once each. */
  lemma InterruptBeforeData(lookup: Lookup, events: seq<LoopEvent>, j: nat)
    requires j < |events| && events[j] == Interrupt
    requires forall i :: 0 <= i < j ==> NoData(events[i])
    ensures MonSpec(true, true, lookup, events).exit == Interrupted
    ensures MonSpec(true, true, lookup, events).actions ==
      [Connect, MonitorStart] + Polls(j) + [MonitorStop, Disconnect]
    ensures forall a :: a in MonSpec(true, true, lookup, events).actions ==> !a.Publish?
  {
    PollLoopSkips(lookup, events, j);
    assert Polls(j) + [] == Polls(j);
  }

  /** Teardown discipline: the monitor is stopped and the broker connection
      closed exactly when the loop was entered and has been left, each
      exactly once and as the last two actions; a washer that cannot be
      reached is never polled, published to or stopped. */
  lemma MonTeardown(isWasher: bool, startOk: bool, lookup: Lookup, events: seq<LoopEvent>)
    ensures var r := MonSpec(isWasher, startOk, lookup, events);
      var left := isWasher && startOk && r.exit != StillPolling;
      (MonitorStop in r.actions <==> left) &&
      (Disconnect in r.actions <==> left) &&
      multiset(r.actions)[MonitorStop] <= 1 && multiset(r.actions)[Disconnect] <= 1 &&
      (left ==> r.actions[|r.actions| - 2..] == [MonitorStop, Disconnect]) &&
      (Poll in r.actions ==> isWasher && startOk) &&
      (!(isWasher && startOk) ==> forall a :: a in r.actions ==> !a.Publish?)
  {
    if isWasher && startOk {
      StartedTeardown(lookup, events);
    }
  }

  /** The loop itself only polls and publishes. */
  lemma {:induction false} PollLoopActions(lookup: Lookup, events: seq<LoopEvent>)
    ensures forall a :: a in PollLoop(lookup, events).actions ==> a == Poll || a.Publish?
    decreases |events|
  {
    if events != [] && NoData(events[0]) {
      PollLoopActions(lookup, events[1..]);
    }
  }

  /** `MonTeardown` once the monitor has started. */
  lemma StartedTeardown(lookup: Lookup, events: seq<LoopEvent>)
    ensures var r := MonSpec(true, true, lookup, events);
      var left := r.exit != StillPolling;
      (MonitorStop in r.actions <==> left) &&
      (Disconnect in r.actions <==> left) &&
      multiset(r.actions)[MonitorStop] <= 1 && multiset(r.actions)[Disconnect] <= 1 &&
      (left ==> r.actions[|r.actions| - 2..] == [MonitorStop, Disconnect])
  {
    var loop := PollLoop(lookup, events);
    var t := loop.actions;
    PollLoopActions(lookup, events);
    assert MonitorStop !in t && Disconnect !in t;
    var r := MonSpec(true, true, lookup, events);
    var head := [Connect, MonitorStart] + t;
    assert MonitorStop !in head && Disconnect !in head;
    assert multiset(head)[MonitorStop] == 0 && multiset(head)[Disconnect] == 0;
    if loop.exit == StillPolling {
      assert r.actions == head;
    } else {
      var tail := [MonitorStop, Disconnect];
      assert r.actions == head + tail;
      assert multiset(r.actions) == multiset(head) + multiset(tail);
      assert r.actions[|r.actions| - 2..] == tail;
    }
  }

  /** At most one publish, and one exactly when `mon` ends by delivering: it
      is the action just before the teardown. */
  lemma MonPublishesOnce(isWasher: bool, startOk: bool, lookup: Lookup, events: seq<LoopEvent>)
    ensures var r := MonSpec(isWasher, startOk, lookup, events);
      var trace := r.actions;
      (forall i, k :: 0 <= i < k < |trace| && trace[i].Publish? ==> !trace[k].Publish?) &&
      ((exists i :: 0 <= i < |trace| && trace[i].Publish?) <==> r.exit == Delivered) &&
      (r.exit == Delivered ==> |trace| >= 5 && trace[|trace| - 3].Publish?)
  {
    var trace := MonSpec(isWasher, startOk, lookup, events).actions;
    var loop := PollLoop(lookup, events);
    var t := loop.actions;
    PollLoopShape(lookup, events);
    if isWasher && startOk {
      var tail: seq<Action> := if loop.exit == StillPolling then [] else [MonitorStop, Disconnect];
      assert trace == [Connect, MonitorStart] + t + tail;
      assert forall i :: 0 <= i < |trace| && trace[i].Publish? ==> i == |t| + 1 && loop.exit == Delivered by {
        forall i | 0 <= i < |trace| && trace[i].Publish?
          ensures i == |t| + 1 && loop.exit == Delivered
        {
          if i >= 2 && i < |t| + 2 {
            assert trace[i] == t[i - 2];
          }
        }
      }
      if loop.exit == Delivered {
        assert trace[|t| + 1].Publish?;
      }
    }
  }
}
