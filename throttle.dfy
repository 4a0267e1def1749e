/** The render throttle (`renderDashboard`, main.js:340-352, and the first step of
    `actualRender`, main.js:355). Its state is the time of the last paint and at most one
    pending deferred paint; time is an explicit parameter instead of `Date.now()`, and the
    pending `setTimeout` is kept as the time it is due. A paint is "set `lastRender`". */
module Throttle {
  import opened Common

  /** `minRenderInterval` (main.js:57), in milliseconds. */
  const MinRenderInterval: int := 100

  /** `lastRender` and the deadline of the pending `renderTimeout`, if any. */
  datatype State = State(lastRender: int, deadline: Option<int>)

  /** The state a dashboard starts with (main.js:55-56). */
  const Initial: State := State(0, None)

  /** Whether a render request at `now` paints at once. */
  predicate PaintsNow(s: State, now: int)
  {
    now - s.lastRender >= MinRenderInterval
  }

  /** `renderDashboard()` at time `now`: paint at once when the last paint is at least
      `MinRenderInterval` old; otherwise cancel the pending deferred paint, if any, and
      schedule a new one `MinRenderInterval` from now. An immediate paint leaves a pending
      deferred paint in place. */
  function Request(s: State, now: int): (r: State)
    ensures r.lastRender >= s.lastRender
    ensures PaintsNow(s, now) ==> r.lastRender == now && r.deadline == s.deadline
    ensures !PaintsNow(s, now) ==> r.lastRender == s.lastRender && r.deadline == Some(now + MinRenderInterval)
  {
    if now - s.lastRender < MinRenderInterval then
      State(s.lastRender, Some(now + MinRenderInterval))
    else
      State(now, s.deadline)
  }

  /** Whether the pending deferred paint is due at `now`. */
  predicate DueAt(s: State, now: int)
  {
    s.deadline.Some? && s.deadline.value <= now
  }

  /** The event loop at time `now`: a due deferred paint runs `actualRender`, which sets
      `lastRender`; the fired timer is no longer pending. */
  function Fire(s: State, now: int): (r: State)
    ensures !DueAt(r, now)
    ensures DueAt(s, now) ==> r == State(now, None)
    ensures !DueAt(s, now) ==> r == s
  {
    if DueAt(s, now) then State(now, None) else s
  }

  /** A single request paints, at its own time, exactly when the last paint is at least
      an interval old; otherwise it paints nothing and leaves exactly one deferred paint
      pending, due an interval after the request, whatever was pending before. */
  lemma RequestPaintsOrDefers(s: State, now: int)
    ensures Run(s, [RenderRequest(now)]).1 == (if now - s.lastRender >= MinRenderInterval then [now] else [])
    ensures now - s.lastRender >= MinRenderInterval ==>
      Run(s, [RenderRequest(now)]).0 == State(now, s.deadline)
    ensures now - s.lastRender < MinRenderInterval ==>
      Run(s, [RenderRequest(now)]).0 == State(s.lastRender, Some(now + MinRenderInterval))
  {
  }

  /** Something that happens to the throttle: a render request, or the event loop
      running due timers, both at a given time. */
  datatype Event = RenderRequest(at: int) | Timers(at: int)

  /** One event: the new state, and the paint it causes, if any. */
  function Step(s: State, e: Event): (State, seq<int>)
  {
    match e
    case RenderRequest(t) => (Request(s, t), if PaintsNow(s, t) then [t] else [])
    case Timers(t) => (Fire(s, t), if DueAt(s, t) then [t] else [])
  }

  /** The state after a sequence of events, and the times at which paints happened. */
  function Run(s: State, events: seq<Event>): (State, seq<int>)
    decreases |events|
  {
    if events == [] then (s, [])
    else
      var (next, painted) := Step(s, events[0]);
      var (last, rest) := Run(next, events[1..]);
      (last, painted + rest)
  }

  /** The render requests issued at the given times. */
  function Requests(times: seq<int>): (events: seq<Event>)
    ensures |events| == |times|
    ensures forall i :: 0 <= i < |times| ==> events[i] == RenderRequest(times[i])
  {
    if times == [] then [] else [RenderRequest(times[0])] + Requests(times[1..])
  }

  /** Whether the times never go backwards. */
  predicate NonDecreasing(times: seq<int>)
  {
    forall i, j :: 0 <= i <= j < |times| ==> times[i] <= times[j]
  }

  /** A burst of render requests, in time order, within one interval of a first request
      that found the last paint at least an interval old and no deferred paint pending,
      paints exactly once, at the first request; when the burst has more than one request,
      one deferred paint is then pending, due an interval after the last request. */
  lemma {:induction false} BurstPaintsOnce(s: State, times: seq<int>)
    requires |times| >= 1
    requires s.deadline.None?
    requires NonDecreasing(times)
    requires PaintsNow(s, times[0])
    requires forall i :: 0 <= i < |times| ==> times[i] < times[0] + MinRenderInterval
    ensures Run(s, Requests(times)).1 == [times[0]]
    ensures Run(s, Requests(times)).0.lastRender == times[0]
    ensures |times| > 1 ==>
      Run(s, Requests(times)).0.deadline == Some(times[|times| - 1] + MinRenderInterval)
  {
    var first := Request(s, times[0]);
    assert Requests(times)[1..] == Requests(times[1..]);
    DeferredBurst(first, times[1..]);
  }

  /** Requests, in time order, that all come less than an interval after the last paint
      and before any pending deferred paint is due paint nothing; the last of them decides
      the pending deadline. */
  lemma {:induction false} DeferredBurst(s: State, times: seq<int>)
    requires NonDecreasing(times)
    requires forall i :: 0 <= i < |times| ==> s.lastRender <= times[i]
    requires forall i :: 0 <= i < |times| ==> times[i] - s.lastRender < MinRenderInterval
    requires forall i :: 0 <= i < |times| ==> s.deadline.None? || times[i] < s.deadline.value
    ensures Run(s, Requests(times)).1 == []
    ensures Run(s, Requests(times)).0.lastRender == s.lastRender
    ensures Run(s, Requests(times)).0.deadline ==
      if times == [] then s.deadline else Some(times[|times| - 1] + MinRenderInterval)
    decreases |times|
  {
    if times != [] {
      var next := Request(s, times[0]);
      assert next == State(s.lastRender, Some(times[0] + MinRenderInterval));
      assert Requests(times)[1..] == Requests(times[1..]);
      DeferredBurst(next, times[1..]);
      assert Step(s, Requests(times)[0]) == (next, []);
    }
  }

  /** The time of the latest paint: the last of `paints`, or the last paint before them. */
  function LastPaint(s: State, paints: seq<int>): int
  {
    if paints == [] then s.lastRender else paints[|paints| - 1]
  }

  /** `lastRender` is always the time of the latest paint, whether a request or a timer
      made it. */
  lemma {:induction false} LastRenderIsLastPaint(s: State, events: seq<Event>)
    ensures Run(s, events).0.lastRender == LastPaint(s, Run(s, events).1)
    decreases |events|
  {
    if events != [] {
      var (next, painted) := Step(s, events[0]);
      LastRenderIsLastPaint(next, events[1..]);
      assert next.lastRender == LastPaint(s, painted);
    }
  }

  /** Events that happen in time order, none before the last paint. */
  predicate InOrder(s: State, events: seq<Event>)
  {
    (forall i :: 0 <= i < |events| ==> s.lastRender <= events[i].at) &&
    forall i, j :: 0 <= i <= j < |events| ==> events[i].at <= events[j].at
  }

  /** Events in time order give paints in time order, none before the last paint. */
  lemma {:induction false} PaintsInOrder(s: State, events: seq<Event>)
    requires InOrder(s, events)
    ensures var paints := Run(s, events).1;
      (forall i :: 0 <= i < |paints| ==> s.lastRender <= paints[i]) &&
      forall i, j :: 0 <= i <= j < |paints| ==> paints[i] <= paints[j]
    decreases |events|
  {
    if events != [] {
      var (next, painted) := Step(s, events[0]);
      assert s.lastRender <= next.lastRender <= events[0].at;
      assert InOrder(next, events[1..]);
      PaintsInOrder(next, events[1..]);
      assert forall i :: 0 <= i < |Run(next, events[1..]).1| ==> next.lastRender <= Run(next, events[1..]).1[i];
      assert Run(s, events).1 == painted + Run(next, events[1..]).1;
      assert painted == [] || painted == [next.lastRender];
    }
  }

  /** In any sequence of render requests and timer firings, a request paints, and adds its
      own time to the paints, exactly when it comes at least an interval after the latest
      paint before it, whether a request or a timer made that paint; otherwise it adds no
      paint. */
  lemma ImmediatePaintsSpaced(s: State, events: seq<Event>, k: nat)
    requires k < |events| && events[k].RenderRequest?
    ensures var before := Run(s, events[..k]).1;
      var after := Run(s, events[..k + 1]).1;
      (events[k].at - LastPaint(s, before) >= MinRenderInterval <==> after == before + [events[k].at]) &&
      (events[k].at - LastPaint(s, before) < MinRenderInterval ==> after == before)
  {
    assert events[..k + 1] == events[..k] + [events[k]];
    RunAppend(s, events[..k], [events[k]]);
    LastRenderIsLastPaint(s, events[..k]);
  }

  /** A deferred paint counts as the latest paint for the requests after it: paints at
      1000 and, deferred, at 1150 make a request at 1200 wait. */
  lemma TimerPaintDefersLaterRequest()
    ensures Run(Initial, [RenderRequest(1000), RenderRequest(1050), Timers(1150), RenderRequest(1200)]).1
            == [1000, 1150]
    ensures Run(Initial, [RenderRequest(1000), RenderRequest(1050), Timers(1150), RenderRequest(1200)]).0
            == State(1150, Some(1300))
  {
  }

  /** Running two event sequences one after the other is running their concatenation. */
  lemma {:induction false} RunAppend(s: State, a: seq<Event>, b: seq<Event>)
    ensures Run(s, a + b).0 == Run(Run(s, a).0, b).0
    ensures Run(s, a + b).1 == Run(s, a).1 + Run(Run(s, a).0, b).1
    decreases |a|
  {
    if a == [] {
      assert a + b == b;
    } else {
      assert (a + b)[0] == a[0];
      assert (a + b)[1..] == a[1..] + b;
      var (next, painted) := Step(s, a[0]);
      RunAppend(next, a[1..], b);
      var mid := Run(next, a[1..]).0;
      assert Run(s, a) == (mid, painted + Run(next, a[1..]).1);
      assert Run(s, a + b) == (Run(next, a[1..] + b).0, painted + Run(next, a[1..] + b).1);
    }
  }

  /** Ten requests in ten milliseconds, or any burst like them in time order that starts
      with no deferred paint pending, give exactly two paints: one at the first request and
      the deferred one an interval after the last request. */
  lemma BurstPaintsTwice(s: State, times: seq<int>)
    requires |times| >= 2
    requires s.deadline.None?
    requires NonDecreasing(times)
    requires PaintsNow(s, times[0])
    requires forall i :: 0 <= i < |times| ==> times[i] < times[0] + MinRenderInterval
    ensures var due := times[|times| - 1] + MinRenderInterval;
      Run(s, Requests(times) + [Timers(due)]).1 == [times[0], due]
  {
    BurstPaintsOnce(s, times);
    RunAppend(s, Requests(times), [Timers(times[|times| - 1] + MinRenderInterval)]);
  }

  /** An immediate paint does not cancel a deferred paint already pending, so two paints
      can come closer together than the interval: a paint at 1000, a deferred request at
      1050, an immediate paint at 1120 and the deferred paint at 1150. */
  lemma DeferredPaintCanFollowImmediatePaint()
    ensures Run(State(0, None),
                [RenderRequest(1000), RenderRequest(1050), RenderRequest(1120), Timers(1150)]).1
            == [1000, 1120, 1150]
  {
  }
}
