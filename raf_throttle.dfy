/** The animation-frame throttle of src/shared/rafThrottle.ts: calls between two
    frames are coalesced, and the handler runs once per frame with the latest arguments. */
module RafThrottle {
  import opened Wrappers

  /** The closure state of one createRafThrottled wrapper. Scheduling a frame is
      modelled by raising `pending`; the browser running the frame callback is `Fire`. */
  class RafThrottled<Args> {
    /** rafId !== null: a frame callback is scheduled and has not run yet. */
    var pending: bool
    /** latestArgs: the arguments of the most recent call not yet handed to the handler. */
    var latestArgs: Option<Args>
    /** How many frames the wrapper has asked for. */
    ghost var framesScheduled: nat
    /** The argument lists the handler has been invoked with, in order. */
    ghost var handlerCalls: seq<Args>

    ghost predicate Valid()
      reads this
    {
      && (latestArgs.Some? ==> pending)
      && |handlerCalls| + (if pending then 1 else 0) <= framesScheduled
    }

    /** createRafThrottled: nothing scheduled, no arguments kept. */
    constructor ()
      ensures Valid()
      ensures !pending && latestArgs == None
      ensures framesScheduled == 0 && handlerCalls == []
    {
      pending := false;
      latestArgs := None;
      framesScheduled := 0;
      handlerCalls := [];
    }

    /** The throttled function: remember the arguments, and schedule a frame unless
        one is already pending. `scheduled` says whether a frame was requested. */
    method Call(args: Args) returns (scheduled: bool)
      requires Valid()
      modifies this
      ensures Valid()
      ensures latestArgs == Some(args) && pending
      ensures scheduled <==> !old(pending)
      ensures framesScheduled == old(framesScheduled) + (if scheduled then 1 else 0)
      ensures handlerCalls == old(handlerCalls)
    {
      latestArgs := Some(args);
      if pending {
        return false;
      }
      pending := true;
      framesScheduled := framesScheduled + 1;
      return true;
    }

    /** The scheduled frame callback: clear the pending frame, then hand the latest
        arguments, if any, to the handler exactly once. `handled` is what the handler got. */
    method Fire() returns (handled: Option<Args>)
      requires Valid()
      modifies this
      ensures Valid()
      ensures !pending && latestArgs == None
      ensures handled == old(latestArgs)
      ensures handlerCalls == old(handlerCalls) + (if handled.Some? then [handled.value] else [])
      ensures framesScheduled == old(framesScheduled)
    {
      pending := false;
      if latestArgs.None? {
        return None;
      }
      var argsToUse := latestArgs.value;
      latestArgs := None;
      handlerCalls := handlerCalls + [argsToUse];
      return Some(argsToUse);
    }

    /** The handler never runs more often than frames were scheduled. */
    lemma CallsNeverExceedFrames()
      requires Valid()
      ensures |handlerCalls| <= framesScheduled
    {
    }
  }

  /** src/shared/rafThrottle.test.ts, first case: two calls share one frame, nothing
      runs before the frame, and the frame runs the handler once with the second call's
      arguments. `rafCalls` counts the calls that asked for a frame; the two logs are the
      handler invocations before and after the frame fires. */
  method CoalescesCallsIntoOneFrame() returns (rafCalls: nat, handled: Option<string>,
                                              ghost logBeforeFire: seq<string>, ghost logAfterFire: seq<string>)
    ensures rafCalls == 1
    ensures logBeforeFire == []
    ensures handled == Some("second") && logAfterFire == ["second"]
  {
    var throttled := new RafThrottled<string>();
    var first := throttled.Call("first");
    var second := throttled.Call("second");
    rafCalls := (if first then 1 else 0) + (if second then 1 else 0);
    logBeforeFire := throttled.handlerCalls;
    handled := throttled.Fire();
    logAfterFire := throttled.handlerCalls;
  }

  /** src/shared/rafThrottle.test.ts, second case: after a frame has run, the next call
      schedules a new one; the handler has run once, with the first call's arguments.
      `handlerLog` is the handler invocations at the end. */
  method AllowsNewFrameAfterFire() returns (rafCalls: nat, handled: Option<string>, ghost handlerLog: seq<string>)
    ensures rafCalls == 2
    ensures handled == Some("first") && handlerLog == ["first"]
  {
    var throttled := new RafThrottled<string>();
    var first := throttled.Call("first");
    handled := throttled.Fire();
    var next := throttled.Call("next");
    rafCalls := (if first then 1 else 0) + (if next then 1 else 0);
    handlerLog := throttled.handlerCalls;
  }
}
