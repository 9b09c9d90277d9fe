/** SDL's side of the event queue: the event record the engine reads and the
    host queue that SDL_PollEvent and SDL_PushEvent work on. The numeric
    constants are SDL 2's. */
module SdlEvents {
  import opened Common

  type U8 = x: int | 0 <= x < 256

  const SDL_QUIT: U32 := 0x100
  const SDL_WINDOWEVENT: U32 := 0x200

  // SDL_WindowEventID
  const WINDOWEVENT_NONE: U8 := 0
  const WINDOWEVENT_SHOWN: U8 := 1
  const WINDOWEVENT_HIDDEN: U8 := 2
  const WINDOWEVENT_EXPOSED: U8 := 3
  const WINDOWEVENT_MOVED: U8 := 4
  const WINDOWEVENT_RESIZED: U8 := 5
  const WINDOWEVENT_SIZE_CHANGED: U8 := 6
  const WINDOWEVENT_MINIMIZED: U8 := 7
  const WINDOWEVENT_MAXIMIZED: U8 := 8
  const WINDOWEVENT_RESTORED: U8 := 9
  const WINDOWEVENT_ENTER: U8 := 10
  const WINDOWEVENT_LEAVE: U8 := 11
  const WINDOWEVENT_FOCUS_GAINED: U8 := 12
  const WINDOWEVENT_FOCUS_LOST: U8 := 13
  const WINDOWEVENT_CLOSE: U8 := 14

  /** The fields of SDL_Event the engine reads: `type`, and for a window
      event `window.event`, `window.data1` and `window.data2`. For other
      event types the window fields are whatever the union holds. */
  datatype Event = Event(kind: U32, windowEvent: U8, data1: I32, data2: I32)

  /** SDL's pending-event queue. Whether SDL_PushEvent accepts an event
      (it can be full, filtered out, or fail) is decided by the host; the
      model takes that decision as a function of the queue and the event,
      with SDL's convention that 1 means "enqueued". */
  class HostQueue {
    var pending: seq<Event>
    const pushAnswer: (seq<Event>, Event) -> int

    constructor (pending: seq<Event>, pushAnswer: (seq<Event>, Event) -> int)
      ensures this.pending == pending && this.pushAnswer == pushAnswer
    {
      this.pending := pending;
      this.pushAnswer := pushAnswer;
    }

    /** SDL_PushEvent: enqueues at the back exactly when it answers 1. */
    method PushEvent(e: Event) returns (code: int)
      modifies this
      ensures code == pushAnswer(old(pending), e)
      ensures pending == if code == 1 then old(pending) + [e] else old(pending)
    {
      code := pushAnswer(pending, e);
      if code == 1 {
        pending := pending + [e];
      }
    }

    /** SDL_PollEvent: 1 and the front event if one is pending, else 0 and
        the caller's event record untouched. */
    method PollEvent(into: Event) returns (code: int, e: Event)
      modifies this
      ensures old(pending) == [] ==> code == 0 && e == into && pending == []
      ensures old(pending) != [] ==>
        code == 1 && e == old(pending)[0] && pending == old(pending)[1..]
    {
      if pending == [] {
        code, e := 0, into;
      } else {
        code, e := 1, pending[0];
        pending := pending[1..];
      }
    }
  }
}

/** The engine's EventQueue namespace: push, poll, and `any`, which answers
    whether some pending event satisfies a predicate by draining the whole
    queue and pushing every event back in order. */
module EventQueue {
  import opened Common
  import opened SdlEvents

  /** How each copy turns SDL's int answer into bool: the Engine copy
      compares with 1; the Draft copy passes it to `to_bool`, whose
      definition is not part of this model and is taken to be "non-zero". */
  function Succeeded(build: Build, code: int): (ok: bool)
    ensures build == Engine ==> (ok <==> code == 1)
    ensures build == Draft ==> (ok <==> code != 0)
  {
    match build
    case Engine => code == 1
    case Draft => code != 0
  }

  /** push */
  method Push(q: HostQueue, build: Build, e: Event) returns (ok: bool)
    modifies q
    ensures ok == Succeeded(build, q.pushAnswer(old(q.pending), e))
    ensures q.pending ==
      if q.pushAnswer(old(q.pending), e) == 1 then old(q.pending) + [e] else old(q.pending)
  {
    var code := q.PushEvent(e);
    ok := Succeeded(build, code);
  }

  /** poll */
  method Poll(q: HostQueue, build: Build, into: Event) returns (ok: bool, e: Event)
    modifies q
    ensures ok <==> old(q.pending) != []
    ensures ok ==> e == old(q.pending)[0] && q.pending == old(q.pending)[1..]
    ensures !ok ==> e == into && q.pending == []
  {
    var code;
    code, e := q.PollEvent(into);
    ok := Succeeded(build, code);
  }

  /** `result |= pred(e)` over the events in order, starting from false. */
  function AnyOf(events: seq<Event>, pred: Event -> bool): bool
    decreases |events|
  {
    if events == [] then false
    else AnyOf(events[..|events| - 1], pred) || pred(events[|events| - 1])
  }

  /** The queue left by pushing `events` back one by one into an empty queue,
      each kept only if the host accepts it. */
  function Requeued(events: seq<Event>, answer: (seq<Event>, Event) -> int): seq<Event>
    decreases |events|
  {
    if events == [] then []
    else
      var before := Requeued(events[..|events| - 1], answer);
      var e := events[|events| - 1];
      if answer(before, e) == 1 then before + [e] else before
  }

  /** any(predicate). Returns the disjunction of the predicate over the
      events pending at the call, `asked` being the events it was evaluated
      on; afterwards the queue holds the drained events the host accepted
      back, in their original order. */
  method Any(q: HostQueue, build: Build, pred: Event -> bool)
    returns (result: bool, ghost asked: seq<Event>)
    modifies q
    ensures result == AnyOf(old(q.pending), pred)
    ensures asked == old(q.pending)
    ensures q.pending == Requeued(old(q.pending), q.pushAnswer)
  {
    var events;
    result, events := Drain(q, build, pred);
    asked := events;
    // The Draft copy then clears its local buffer of moved-from events; the
    // buffer is gone once any returns, so that clear is not modelled.
    Repush(q, build, events);
  }

  /** The first loop of `any`: poll until the queue reports empty, evaluating
      the predicate on every event (no short-circuit) and keeping it. */
  method Drain(q: HostQueue, build: Build, pred: Event -> bool)
    returns (result: bool, events: seq<Event>)
    modifies q
    ensures events == old(q.pending) && q.pending == []
    ensures result == AnyOf(events, pred)
  {
    result := false;
    events := [];
    var current := Event(0, 0, 0, 0);
    var polled;
    polled, current := Poll(q, build, current);
    while polled
      invariant polled ==> events + [current] + q.pending == old(q.pending)
      invariant !polled ==> events == old(q.pending) && q.pending == []
      invariant result == AnyOf(events, pred)
      decreases |q.pending|, polled
    {
      var answer := pred(current);
      result := result || answer;
      assert (events + [current])[..|events|] == events;
      events := events + [current];
      polled, current := Poll(q, build, current);
    }
  }

  /** The second loop of `any`: push the drained events back in order,
      ignoring whether each push succeeded. */
  method Repush(q: HostQueue, build: Build, events: seq<Event>)
    requires q.pending == []
    modifies q
    ensures q.pending == Requeued(events, q.pushAnswer)
  {
    var i := 0;
    while i < |events|
      invariant 0 <= i <= |events|
      invariant q.pending == Requeued(events[..i], q.pushAnswer)
    {
      assert events[..i + 1][..i] == events[..i];
      var _ := Push(q, build, events[i]);
      i := i + 1;
    }
    assert events[..i] == events;
  }

  /** `any` is true exactly when some pending event satisfies the
      predicate; on an empty queue it is false. */
  lemma {:induction false} AnyOfExists(events: seq<Event>, pred: Event -> bool)
    ensures AnyOf(events, pred) <==> exists k :: 0 <= k < |events| && pred(events[k])
    decreases |events|
  {
    if events != [] {
      var prefix := events[..|events| - 1];
      AnyOfExists(prefix, pred);
      if exists k :: 0 <= k < |prefix| && pred(prefix[k]) {
        var k :| 0 <= k < |prefix| && pred(prefix[k]);
        assert events[k] == prefix[k];
      }
      if exists k :: 0 <= k < |events| && pred(events[k]) {
        var k :| 0 <= k < |events| && pred(events[k]);
        if k < |prefix| {
          assert prefix[k] == events[k];
        }
      }
    }
  }

  /** Whatever the host answers, the events that come back are some of the
      drained events, each at most once, in their original order. */
  lemma {:induction false} RequeuedIsSubsequence(events: seq<Event>, answer: (seq<Event>, Event) -> int)
    ensures IsSubsequence(Requeued(events, answer), events)
    decreases |events|
  {
    if events != [] {
      var prefix := events[..|events| - 1];
      var e := events[|events| - 1];
      RequeuedIsSubsequence(prefix, answer);
      SubsequenceExtend(Requeued(prefix, answer), prefix, e);
      assert prefix + [e] == events;
    }
  }

  /** When the host accepts every push, the queue is restored exactly. */
  lemma {:induction false} RequeuedRestores(events: seq<Event>, answer: (seq<Event>, Event) -> int)
    requires forall k :: 0 <= k < |events| ==> answer(events[..k], events[k]) == 1
    ensures Requeued(events, answer) == events
    decreases |events|
  {
    if events != [] {
      var n := |events| - 1;
      var prefix := events[..n];
      forall k | 0 <= k < |prefix|
        ensures answer(prefix[..k], prefix[k]) == 1
      {
        assert prefix[..k] == events[..k];
      }
      RequeuedRestores(prefix, answer);
      assert prefix + [events[n]] == events;
    }
  }

  /** A queue that refuses a push only when it already holds `capacity`
      events (SDL's only refusal when no event filter is installed). */
  function CapacityAnswer(capacity: nat): (seq<Event>, Event) -> int {
    (queued: seq<Event>, e: Event) => if |queued| < capacity then 1 else -1
  }

  /** With such a queue, `any` never loses an event: everything it drained
      fits back. */
  lemma AnyRestoresBoundedQueue(events: seq<Event>, capacity: nat)
    requires |events| <= capacity
    ensures Requeued(events, CapacityAnswer(capacity)) == events
  {
    forall k | 0 <= k < |events|
      ensures CapacityAnswer(capacity)(events[..k], events[k]) == 1
    {
    }
    RequeuedRestores(events, CapacityAnswer(capacity));
  }
}
