/** initGameLoop: creates the game context, calls its `init`, reads the
    clock, then on every tick reads the clock again and calls `loop` with
    the time since the previous reading, until `loop` answers false; then
    the context is destroyed. The clock readings and `loop`'s answers are
    inputs; what the driver does is recorded as a trace of effects. */
module GameLoop {
  import opened Common

  /** What the driver does to the context and the clock, in order. */
  datatype Effect =
    | Create             // std::make_unique<TGameContext>(args...)
    | Init               // context->init()
    | ReadClock(t: int)  // steady_clock::now(), in nanoseconds
    | Loop(delta: int)   // context->loop(deltaTime)
    | Destroy            // context.reset()

  function Prologue(start: int): seq<Effect> {
    [Create, Init, ReadClock(start)]
  }

  /** The ticks driven by the clock readings r[0], r[1], ...: each reads the
      next value and passes the difference to the previous one to `loop`. */
  function TickTrace(r: seq<int>): seq<Effect>
    requires |r| >= 1
    decreases |r|
  {
    if |r| == 1 then []
    else TickTrace(r[..|r| - 1]) + [ReadClock(r[|r| - 1]), Loop(r[|r| - 1] - r[|r| - 2])]
  }

  /** How many times `loop` runs: up to and including its first false
      answer, or every answer given if none is false. */
  function LoopCount(answers: seq<bool>): (n: nat)
    ensures n <= |answers|
    ensures forall k :: 0 <= k < |answers| && k + 1 < n ==> answers[k]
    ensures false in answers ==> 0 < n && !answers[n - 1]
    ensures false !in answers ==> n == |answers|
    decreases |answers|
  {
    if answers == [] then 0
    else if !answers[0] then 1
    else 1 + LoopCount(answers[1..])
  }

  /** The count is the position of the first false answer, plus one. */
  lemma {:induction false} LoopCountUnique(answers: seq<bool>, n: nat)
    requires 0 < n <= |answers| && !answers[n - 1]
    requires forall k :: 0 <= k < n - 1 ==> answers[k]
    ensures LoopCount(answers) == n
    decreases n
  {
    if n > 1 {
      assert answers[0];
      LoopCountUnique(answers[1..], n - 1);
    }
  }

  /** The native driver (no __EMSCRIPTEN__): `clock[0]` is the reading after
      init and `clock[k + 1]` the reading of tick k; `answers[k]` is what
      `loop` returns on tick k. It returns Some(0) once `loop` has answered
      false; when every given answer is true the loop is still running and
      the result is None. */
  method RunNative(clock: seq<int>, answers: seq<bool>)
    returns (status: Option<int>, trace: seq<Effect>)
    requires |clock| == |answers| + 1
    ensures status == if false in answers then Some(0) else None
    ensures trace == Prologue(clock[0]) + TickTrace(clock[..LoopCount(answers) + 1])
                     + (if false in answers then [Destroy] else [])
  {
    trace := Prologue(clock[0]);
    var previousTime := clock[0];
    var deltaTime := 0;
    var i := 0;
    while i < |answers|
      invariant 0 <= i <= |answers|
      invariant forall k :: 0 <= k < i ==> answers[k]
      invariant previousTime == clock[i]
      invariant trace == Prologue(clock[0]) + TickTrace(clock[..i + 1])
    {
      var newTime := clock[i + 1];
      deltaTime := newTime - previousTime;
      previousTime := newTime;
      assert clock[..i + 2][..i + 1] == clock[..i + 1];
      trace := trace + [ReadClock(newTime), Loop(deltaTime)];
      var again := answers[i];
      i := i + 1;
      if !again {
        trace := trace + [Destroy];
        LoopCountUnique(answers, i);
        status := Some(0);
        return;
      }
    }
    status := None;
  }

  /** The per-callback step of the web driver, which hands the loop to the
      browser's scheduler: the frame holds the variables the callback
      captures. The browser calls the callback until it is cancelled. */
  class MainLoopFrame {
    var previousTime: int
    var deltaTime: int
    var contextAlive: bool
    var loopCancelled: bool
    ghost var readings: seq<int>
    ghost var trace: seq<Effect>

    /** The frame after the readings so far: the previous time is the last
        reading, and the trace is that of the native driver. */
    ghost predicate Valid()
      reads this
    {
      && |readings| >= 1
      && previousTime == readings[|readings| - 1]
      && (|readings| == 1 ==> deltaTime == 0)
      && (|readings| > 1 ==> deltaTime == readings[|readings| - 1] - readings[|readings| - 2])
      && loopCancelled == !contextAlive
      && trace == Prologue(readings[0]) + TickTrace(readings) + (if contextAlive then [] else [Destroy])
    }

    /** initGameLoop up to registering the callback: the context is created
        and initialised and the start time read. */
    constructor (start: int)
      ensures Valid() && contextAlive
      ensures readings == [start] && previousTime == start && deltaTime == 0
      ensures trace == Prologue(start)
    {
      previousTime := start;
      deltaTime := 0;
      contextAlive := true;
      loopCancelled := false;
      readings := [start];
      trace := Prologue(start);
    }

    /** One callback at time `now`, `loop` answering `again`. The browser
        does not call it after the loop was cancelled. */
    method Callback(now: int, again: bool)
      requires Valid() && contextAlive
      modifies this
      ensures Valid()
      ensures readings == old(readings) + [now]
      ensures deltaTime == now - old(previousTime) && previousTime == now
      ensures contextAlive == again && loopCancelled == !again
    {
      deltaTime := now - previousTime;
      previousTime := now;
      assert (readings + [now])[..|readings|] == readings;
      readings := readings + [now];
      trace := trace + [ReadClock(now), Loop(deltaTime)];
      if !again {
        contextAlive := false;
        loopCancelled := true;
        trace := trace + [Destroy];
      }
    }
  }

  // -----------------------------------------------------------------------
  // Properties of the trace.

  /** Tick k reads r[k + 1] and passes r[k + 1] - r[k] to `loop`. */
  lemma {:induction false} TickTraceEntries(r: seq<int>, k: nat)
    requires k + 1 < |r|
    ensures |TickTrace(r)| == 2 * (|r| - 1)
    ensures TickTrace(r)[2 * k] == ReadClock(r[k + 1])
    ensures TickTrace(r)[2 * k + 1] == Loop(r[k + 1] - r[k])
    decreases |r|
  {
    TickTraceLength(r);
    var p := r[..|r| - 1];
    if k + 2 < |r| {
      TickTraceEntries(p, k);
      TickTraceLength(p);
    } else {
      TickTraceLength(p);
    }
  }

  lemma {:induction false} TickTraceLength(r: seq<int>)
    requires |r| >= 1
    ensures |TickTrace(r)| == 2 * (|r| - 1)
    decreases |r|
  {
    if |r| > 1 {
      TickTraceLength(r[..|r| - 1]);
    }
  }

  /** Ticks only read the clock and call `loop`. */
  lemma {:induction false} TickTraceOnlyTicks(r: seq<int>)
    requires |r| >= 1
    ensures forall k :: 0 <= k < |TickTrace(r)| ==> TickTrace(r)[k].ReadClock? || TickTrace(r)[k].Loop?
    decreases |r|
  {
    if |r| > 1 {
      TickTraceOnlyTicks(r[..|r| - 1]);
    }
  }

  /** Number of `loop` calls in a trace. */
  function LoopCalls(trace: seq<Effect>): nat
    decreases |trace|
  {
    if trace == [] then 0
    else LoopCalls(trace[..|trace| - 1]) + (if trace[|trace| - 1].Loop? then 1 else 0)
  }

  /** Sum of the deltas passed to `loop` in a trace. */
  function TotalDelta(trace: seq<Effect>): int
    decreases |trace|
  {
    if trace == [] then 0
    else TotalDelta(trace[..|trace| - 1]) + (if trace[|trace| - 1].Loop? then trace[|trace| - 1].delta else 0)
  }

  lemma AppendTick(t: seq<Effect>, now: int, delta: int)
    ensures LoopCalls(t + [ReadClock(now), Loop(delta)]) == LoopCalls(t) + 1
    ensures TotalDelta(t + [ReadClock(now), Loop(delta)]) == TotalDelta(t) + delta
  {
    var u := t + [ReadClock(now), Loop(delta)];
    assert u[..|u| - 1] == t + [ReadClock(now)];
    assert (t + [ReadClock(now)])[..|t|] == t;
  }

  /** One `loop` call per tick, and the deltas add up to the time between
      the first and the last reading. */
  lemma {:induction false} TickTraceTelescopes(r: seq<int>)
    requires |r| >= 1
    ensures LoopCalls(TickTrace(r)) == |r| - 1
    ensures TotalDelta(TickTrace(r)) == r[|r| - 1] - r[0]
    decreases |r|
  {
    if |r| > 1 {
      var p := r[..|r| - 1];
      TickTraceTelescopes(p);
      AppendTick(TickTrace(p), r[|r| - 1], r[|r| - 1] - r[|r| - 2]);
    }
  }

  predicate NonDecreasing(r: seq<int>) {
    forall i, j :: 0 <= i <= j < |r| ==> r[i] <= r[j]
  }

  /** With a steady clock no delta is negative. */
  lemma {:induction false} SteadyClockDeltasNonNegative(r: seq<int>)
    requires |r| >= 1 && NonDecreasing(r)
    ensures forall k :: 0 <= k < |TickTrace(r)| && TickTrace(r)[k].Loop? ==> TickTrace(r)[k].delta >= 0
    decreases |r|
  {
    if |r| > 1 {
      var p := r[..|r| - 1];
      assert NonDecreasing(p);
      SteadyClockDeltasNonNegative(p);
      assert r[|r| - 2] <= r[|r| - 1];
    }
  }

  /** `loop` answering true K times and then false is called K + 1 times;
      the driver then returns 0, and the trace holds exactly K + 1 `loop`
      calls whose deltas add up to the last reading minus the first. */
  lemma LoopRunsUntilFalse(clock: seq<int>, k: nat, rest: seq<bool>)
    requires |clock| == k + 1 + |rest| + 1
    ensures var answers := seq(k, _ => true) + [false] + rest;
      && LoopCount(answers) == k + 1
      && LoopCalls(TickTrace(clock[..k + 2])) == k + 1
      && TotalDelta(TickTrace(clock[..k + 2])) == clock[k + 1] - clock[0]
  {
    var answers := seq(k, _ => true) + [false] + rest;
    assert answers[k] == false;
    LoopCountUnique(answers, k + 1);
    TickTraceTelescopes(clock[..k + 2]);
  }

  /** The context is created and initialised once, first; it is destroyed
      at most once, as the very last effect. */
  lemma LifecycleShape(start: int, r: seq<int>, ended: bool)
    requires |r| >= 1
    ensures var trace := Prologue(start) + TickTrace(r) + (if ended then [Destroy] else []);
      && trace[0] == Create && trace[1] == Init && trace[2] == ReadClock(start)
      && (forall k :: 2 <= k < |trace| ==> !trace[k].Create? && !trace[k].Init?)
      && (forall k :: 0 <= k < |trace| - 1 ==> !trace[k].Destroy?)
      && (trace[|trace| - 1].Destroy? <==> ended)
  {
    var ticks := TickTrace(r);
    TickTraceOnlyTicks(r);
    var tail: seq<Effect> := if ended then [Destroy] else [];
    var trace := Prologue(start) + ticks + tail;
    forall k | 3 <= k < 3 + |ticks|
      ensures trace[k] == ticks[k - 3]
    {
    }
  }

  /** In the native driver, in particular, the context is destroyed exactly
      when `loop` answered false. */
  lemma NativeLifecycle(clock: seq<int>, answers: seq<bool>)
    requires |clock| == |answers| + 1
    ensures var trace := Prologue(clock[0]) + TickTrace(clock[..LoopCount(answers) + 1])
                         + (if false in answers then [Destroy] else []);
      && trace[0] == Create && trace[1] == Init && trace[2] == ReadClock(clock[0])
      && (forall k :: 2 <= k < |trace| ==> !trace[k].Create? && !trace[k].Init?)
      && (forall k :: 0 <= k < |trace| - 1 ==> !trace[k].Destroy?)
      && (trace[|trace| - 1].Destroy? <==> false in answers)
  {
    LifecycleShape(clock[0], clock[..LoopCount(answers) + 1], false in answers);
  }
}
