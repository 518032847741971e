/** internal/infrastructure/bus/eventbus.go: an in-process bus that hands
    every published event to every subscribed handler.

    A handler is a value of type `H`; `handle` says what calling it on an
    event does to the rest of the system, a value of type `W`, and whether
    it returns an error. The context argument carries nothing the bus reads
    and is left out. */
module EventBus {
  import opened Wrappers
  import opened Errors
  import opened Events

  /** `InMemoryEventBus`: the handlers in subscription order. */
  datatype Bus<H> = Bus(handlers: seq<H>)

  /** `NewInMemoryEventBus`. */
  function New<H>(): (b: Bus<H>)
    ensures b.handlers == []
  {
    Bus([])
  }

  /** `Subscribe`: append the handler; it never fails. */
  function Subscribe<H>(b: Bus<H>, h: H): (r: (Bus<H>, Option<Error>))
    ensures r.1 == None
    ensures |r.0.handlers| == |b.handlers| + 1
    ensures r.0.handlers[..|b.handlers|] == b.handlers && r.0.handlers[|b.handlers|] == h
  {
    (Bus(b.handlers + [h]), None)
  }

  /** What a dispatch leaves behind: the rest of the system, the error
      returned, and the (event index, handler index) pairs called, in call
      order. */
  datatype Dispatch<W> = Dispatch(world: W, err: Option<Error>, calls: seq<(nat, nat)>)

  /** Event `i` offered to handlers 0 to n - 1. */
  function Round(i: nat, n: nat): (r: seq<(nat, nat)>)
    ensures |r| == n
    ensures forall j :: 0 <= j < n ==> r[j] == (i, j)
  {
    seq(n, j => (i, j))
  }

  /** The event-major order of calls for events `i` to `m - 1` and `n`
      handlers: every handler sees an event before any sees the next. */
  function Schedule(i: nat, m: nat, n: nat): (r: seq<(nat, nat)>)
    decreases m - i
  {
    if i >= m then [] else Round(i, n) + Schedule(i + 1, m, n)
  }

  /** The schedule holds |events| × |handlers| calls. */
  lemma {:induction false} ScheduleLength(i: nat, m: nat, n: nat)
    requires i <= m
    ensures |Schedule(i, m, n)| == (m - i) * n
    decreases m - i
  {
    if i < m {
      ScheduleLength(i + 1, m, n);
      assert (m - i) * n == n + (m - (i + 1)) * n;
    }
  }

  /** Every scheduled call names an existing event and handler. */
  predicate InRange(calls: seq<(nat, nat)>, m: nat, n: nat) {
    forall k :: 0 <= k < |calls| ==> calls[k].0 < m && calls[k].1 < n
  }

  lemma {:induction false} ScheduleInRange(i: nat, m: nat, n: nat)
    ensures InRange(Schedule(i, m, n), m, n)
    decreases m - i
  {
    if i < m {
      ScheduleInRange(i + 1, m, n);
      var r: seq<(nat, nat)> := Round(i, n);
      var rest: seq<(nat, nat)> := Schedule(i + 1, m, n);
      var all: seq<(nat, nat)> := r + rest;
      assert Schedule(i, m, n) == all;
      forall k | 0 <= k < |all| ensures all[k].0 < m && all[k].1 < n {
        if k >= |r| {
          assert all[k] == rest[k - |r|];
        }
      }
    }
  }

  /** The reference dispatcher: make the listed calls in order, stopping at
      the first error. */
  function RunCalls<W, H>(w: W, handlers: seq<H>, events: seq<Event>, calls: seq<(nat, nat)>,
                          handle: (W, H, Event) -> Step<W>): (r: Dispatch<W>)
    requires InRange(calls, |events|, |handlers|)
    ensures r.calls <= calls
    ensures r.err.None? ==> r.calls == calls
    ensures r.err.Some? ==> r.calls != []
    decreases |calls|
  {
    if |calls| == 0 then Dispatch(w, None, [])
    else
      var (i, j) := calls[0];
      var s := handle(w, handlers[j], events[i]);
      if s.failure.Some? then Dispatch(s.state, s.failure, [calls[0]])
      else
        var r := RunCalls(s.state, handlers, events, calls[1..], handle);
        assert calls == [calls[0]] + calls[1..];
        Dispatch(r.world, r.err, [calls[0]] + r.calls)
  }

  /** The inner loop: event `i` offered to handlers `j` onwards. */
  function Offer<W, H>(w: W, handlers: seq<H>, e: Event, i: nat, j: nat,
                       handle: (W, H, Event) -> Step<W>): (r: Dispatch<W>)
    requires j <= |handlers|
    decreases |handlers| - j
  {
    if j == |handlers| then Dispatch(w, None, [])
    else
      var s := handle(w, handlers[j], e);
      if s.failure.Some? then Dispatch(s.state, s.failure, [(i, j)])
      else
        var r := Offer(s.state, handlers, e, i, j + 1, handle);
        Dispatch(r.world, r.err, [(i, j)] + r.calls)
  }

  /** The outer loop: events `i` onwards. */
  function PublishFrom<W, H>(w: W, handlers: seq<H>, events: seq<Event>, i: nat,
                             handle: (W, H, Event) -> Step<W>): (r: Dispatch<W>)
    requires i <= |events|
    decreases |events| - i
  {
    if i == |events| then Dispatch(w, None, [])
    else
      var d := Offer(w, handlers, events[i], i, 0, handle);
      if d.err.Some? then d
      else
        var r := PublishFrom(d.world, handlers, events, i + 1, handle);
        Dispatch(r.world, r.err, d.calls + r.calls)
  }

  /** Running the calls of `a` and then those of `b` is running `a + b`. */
  lemma {:induction false} RunCallsAppend<W, H>(w: W, handlers: seq<H>, events: seq<Event>,
                                               a: seq<(nat, nat)>, b: seq<(nat, nat)>,
                                               handle: (W, H, Event) -> Step<W>)
    requires InRange(a, |events|, |handlers|) && InRange(b, |events|, |handlers|)
    ensures InRange(a + b, |events|, |handlers|)
    ensures var x := RunCalls(w, handlers, events, a, handle);
      RunCalls(w, handlers, events, a + b, handle) ==
        if x.err.Some? then x
        else
          var y := RunCalls(x.world, handlers, events, b, handle);
          Dispatch(y.world, y.err, x.calls + y.calls)
    decreases |a|
  {
    assert InRange(a + b, |events|, |handlers|) by {
      forall k | 0 <= k < |a + b| ensures (a + b)[k].0 < |events| && (a + b)[k].1 < |handlers| {
        if k >= |a| {
          assert (a + b)[k] == b[k - |a|];
        }
      }
    }
    if |a| == 0 {
      assert a + b == b;
    } else {
      assert (a + b)[0] == a[0];
      assert (a + b)[1..] == a[1..] + b;
      var (i, j) := a[0];
      var s := handle(w, handlers[j], events[i]);
      if s.failure.None? {
        RunCallsAppend(s.state, handlers, events, a[1..], b, handle);
      }
    }
  }

  /** The inner loop makes the calls of its round, in order. */
  lemma {:induction false} OfferFollowsRound<W, H>(w: W, handlers: seq<H>, events: seq<Event>, i: nat, j: nat,
                                                  handle: (W, H, Event) -> Step<W>)
    requires i < |events| && j <= |handlers|
    ensures InRange(Round(i, |handlers|)[j..], |events|, |handlers|)
    ensures Offer(w, handlers, events[i], i, j, handle) == RunCalls(w, handlers, events, Round(i, |handlers|)[j..], handle)
    decreases |handlers| - j
  {
    var round := Round(i, |handlers|)[j..];
    assert forall k :: 0 <= k < |round| ==> round[k] == (i, j + k);
    if j < |handlers| {
      var s := handle(w, handlers[j], events[i]);
      if s.failure.None? {
        OfferFollowsRound(s.state, handlers, events, i, j + 1, handle);
        assert round[1..] == Round(i, |handlers|)[j + 1..];
      }
    }
  }

  /** `Publish` is the reference dispatcher run over the event-major
      schedule: nested loops over events and handlers make exactly the
      calls of that schedule, in its order, up to the first error. */
  lemma {:induction false} PublishFollowsSchedule<W, H>(w: W, handlers: seq<H>, events: seq<Event>, i: nat,
                                                       handle: (W, H, Event) -> Step<W>)
    requires i <= |events|
    ensures InRange(Schedule(i, |events|, |handlers|), |events|, |handlers|)
    ensures PublishFrom(w, handlers, events, i, handle) ==
      RunCalls(w, handlers, events, Schedule(i, |events|, |handlers|), handle)
    decreases |events| - i
  {
    ScheduleInRange(i, |events|, |handlers|);
    if i < |events| {
      var d := Offer(w, handlers, events[i], i, 0, handle);
      if d.err.None? {
        PublishFollowsSchedule(d.world, handlers, events, i + 1, handle);
        RoundThenRest(w, handlers, events, i, handle);
      } else {
        RoundFails(w, handlers, events, i, handle);
      }
    }
  }

  /** A failing round ends both loops and the reference run alike. */
  lemma RoundFails<W, H>(w: W, handlers: seq<H>, events: seq<Event>, i: nat, handle: (W, H, Event) -> Step<W>)
    requires i < |events| && Offer(w, handlers, events[i], i, 0, handle).err.Some?
    ensures InRange(Schedule(i, |events|, |handlers|), |events|, |handlers|)
    ensures PublishFrom(w, handlers, events, i, handle) ==
      RunCalls(w, handlers, events, Schedule(i, |events|, |handlers|), handle)
  {
    var round := Round(i, |handlers|);
    var later := Schedule(i + 1, |events|, |handlers|);
    OfferIsRound(w, handlers, events, i, handle);
    ScheduleInRange(i + 1, |events|, |handlers|);
    RunCallsAppend(w, handlers, events, round, later, handle);
  }

  /** A round that succeeds is followed by the remaining events, in both
      the loops and the reference run. */
  lemma RoundThenRest<W, H>(w: W, handlers: seq<H>, events: seq<Event>, i: nat, handle: (W, H, Event) -> Step<W>)
    requires i < |events|
    requires var d := Offer(w, handlers, events[i], i, 0, handle);
      && d.err.None?
      && InRange(Schedule(i + 1, |events|, |handlers|), |events|, |handlers|)
      && PublishFrom(d.world, handlers, events, i + 1, handle) ==
           RunCalls(d.world, handlers, events, Schedule(i + 1, |events|, |handlers|), handle)
    ensures InRange(Schedule(i, |events|, |handlers|), |events|, |handlers|)
    ensures PublishFrom(w, handlers, events, i, handle) ==
      RunCalls(w, handlers, events, Schedule(i, |events|, |handlers|), handle)
  {
    var round := Round(i, |handlers|);
    var later := Schedule(i + 1, |events|, |handlers|);
    OfferIsRound(w, handlers, events, i, handle);
    RunCallsAppend(w, handlers, events, round, later, handle);
  }

  /** The whole inner loop for event `i` makes the calls of its round. */
  lemma OfferIsRound<W, H>(w: W, handlers: seq<H>, events: seq<Event>, i: nat, handle: (W, H, Event) -> Step<W>)
    requires i < |events|
    ensures InRange(Round(i, |handlers|), |events|, |handlers|)
    ensures Offer(w, handlers, events[i], i, 0, handle) == RunCalls(w, handlers, events, Round(i, |handlers|), handle)
    ensures Schedule(i, |events|, |handlers|) == Round(i, |handlers|) + Schedule(i + 1, |events|, |handlers|)
  {
    assert Round(i, |handlers|)[0..] == Round(i, |handlers|);
    OfferFollowsRound(w, handlers, events, i, 0, handle);
  }

  /** `Publish`. */
  function Publish<W, H>(w: W, b: Bus<H>, events: seq<Event>, handle: (W, H, Event) -> Step<W>): (r: Dispatch<W>)
    ensures InRange(Schedule(0, |events|, |b.handlers|), |events|, |b.handlers|)
    ensures r == RunCalls(w, b.handlers, events, Schedule(0, |events|, |b.handlers|), handle)
  {
    PublishFollowsSchedule(w, b.handlers, events, 0, handle);
    PublishFrom(w, b.handlers, events, 0, handle)
  }

  /** What the caller sees: the calls made are a prefix of the event-major
      schedule, which holds |events| × |handlers| calls; without an error
      every handler saw every event (no calls at all when either list is
      empty); with an error, the calls stop at the failing one. */
  lemma PublishOutcome<W, H>(w: W, b: Bus<H>, events: seq<Event>, handle: (W, H, Event) -> Step<W>)
    ensures var r := Publish(w, b, events, handle);
      && r.calls <= Schedule(0, |events|, |b.handlers|)
      && |Schedule(0, |events|, |b.handlers|)| == |events| * |b.handlers|
      && (r.err.None? ==> r.calls == Schedule(0, |events|, |b.handlers|))
      && (r.err.Some? ==> r.calls != [])
  {
    ScheduleLength(0, |events|, |b.handlers|);
  }

  /** The first handler error ends the dispatch: the calls before the last
      one all succeeded, and the last call's error is returned. */
  lemma {:induction false} StopsAtFirstError<W, H>(w: W, handlers: seq<H>, events: seq<Event>, calls: seq<(nat, nat)>,
                                                  handle: (W, H, Event) -> Step<W>)
    requires InRange(calls, |events|, |handlers|)
    ensures var r := RunCalls(w, handlers, events, calls, handle);
      r.err.Some? ==>
        var n := |r.calls| - 1;
        var before := RunCalls(w, handlers, events, calls[..n], handle);
        && before.err.None?
        && var (i, j) := calls[n];
           handle(before.world, handlers[j], events[i]) == Step(r.world, r.err)
    decreases |calls|
  {
    var r := RunCalls(w, handlers, events, calls, handle);
    if |calls| > 0 && r.err.Some? {
      var (i, j) := calls[0];
      var s := handle(w, handlers[j], events[i]);
      if s.failure.Some? {
        assert calls[..0] == [];
      } else {
        StopsAtFirstError(s.state, handlers, events, calls[1..], handle);
        var n := |r.calls| - 1;
        assert calls[1..][..n - 1] == calls[1..n];
        assert calls[..n][1..] == calls[1..n];
        assert calls[..n][0] == calls[0];
        assert calls[1..][n - 1] == calls[n];
      }
    }
  }
}
