/** The process-wide instance counter behind `initialize`/`shutdown` and every client's lifetime.
    Platform start-up (socket library start-up, or ignoring SIGPIPE) runs only when the count
    leaves 0, and platform clean-up only when it returns to 0. The counter is a 32-bit unsigned
    integer: both the increment and the decrement wrap. */
module Instances {
  import opened Errors

  const Two32: nat := 0x1_0000_0000

  type U32 = x: int | 0 <= x < 0x1_0000_0000

  /** What the counter asks of the platform. */
  datatype Event = Startup | Cleanup

  /** A call on the counter: `internalInitialize` or `internalShutdown`. */
  datatype Call = Init | Shut

  /** The counter after one call. */
  function Step(count: U32, c: Call): U32
  {
    match c
    case Init => (count + 1) % Two32
    case Shut => (count - 1) % Two32
  }

  /** The platform events one call causes: start-up on the 0 -> 1 transition, clean-up on 1 -> 0. */
  function StepEvents(count: U32, c: Call): seq<Event>
  {
    match c
    case Init => if count == 0 then [Startup] else []
    case Shut => if count == 1 then [Cleanup] else []
  }

  /** The counter after a sequence of calls. */
  function Run(count: U32, calls: seq<Call>): U32
  {
    if calls == [] then count else Step(Run(count, calls[..|calls| - 1]), calls[|calls| - 1])
  }

  /** The platform events of a sequence of calls, in order. */
  function RunEvents(count: U32, calls: seq<Call>): seq<Event>
  {
    if calls == [] then []
    else
      var before := calls[..|calls| - 1];
      RunEvents(count, before) + StepEvents(Run(count, before), calls[|calls| - 1])
  }

  function Inits(calls: seq<Call>): nat
  {
    if calls == [] then 0 else Inits(calls[..|calls| - 1]) + (if calls[|calls| - 1] == Init then 1 else 0)
  }

  function Shuts(calls: seq<Call>): nat
  {
    if calls == [] then 0 else Shuts(calls[..|calls| - 1]) + (if calls[|calls| - 1] == Shut then 1 else 0)
  }

  /** The counter is the start plus the initializations minus the shutdowns, modulo 2^32. */
  lemma {:induction false} RunCount(count: U32, calls: seq<Call>)
    ensures Run(count, calls) == (count + Inits(calls) - Shuts(calls)) % Two32
  {
    if calls != [] {
      var before := calls[..|calls| - 1];
      RunCount(count, before);
      var k := count + Inits(before) - Shuts(before);
      assert Run(count, before) == k % Two32;
      var d := if calls[|calls| - 1] == Init then 1 else -1;
      assert Inits(calls) - Shuts(calls) == Inits(before) - Shuts(before) + d;
      assert Run(count, calls) == (k % Two32 + d) % Two32;
      ModShift(k, d);
    }
  }

  /** Reducing before a step of the counter is the same as reducing after it. */
  lemma ModShift(k: int, d: int)
    ensures (k % Two32 + d) % Two32 == (k + d) % Two32
  {
    var q := k / Two32;
    assert k + d == (k % Two32 + d) + q * Two32;
  }

  /** Any sequence with as many shutdowns as initializations, in any order, returns the counter
      to where it started. */
  lemma {:induction false} BalancedRunRestoresCount(count: U32, calls: seq<Call>)
    requires Inits(calls) == Shuts(calls)
    ensures Run(count, calls) == count
  {
    RunCount(count, calls);
  }

  /** The calls never shut down more instances than were initialized, at any point. */
  predicate Nested(calls: seq<Call>)
  {
    forall k :: 0 <= k <= |calls| ==> Shuts(calls[..k]) <= Inits(calls[..k])
  }

  /** Start-up and clean-up alternate, beginning with start-up. */
  predicate Alternating(events: seq<Event>)
  {
    forall i :: 0 <= i < |events| ==> events[i] == (if i % 2 == 0 then Startup else Cleanup)
  }

  /** From a fresh process, a nested sequence of fewer than 2^32 initializations starts the platform
      up and cleans it up in strict alternation, and the platform is up exactly while the count is
      positive. */
  lemma {:induction false} NestedRunAlternates(calls: seq<Call>)
    requires Nested(calls) && Inits(calls) < Two32
    ensures Run(0, calls) == Inits(calls) - Shuts(calls)
    ensures Alternating(RunEvents(0, calls))
    ensures Run(0, calls) > 0 <==> |RunEvents(0, calls)| % 2 == 1
  {
    if calls != [] {
      var before := calls[..|calls| - 1];
      var c := calls[|calls| - 1];
      NestedPrefix(calls);
      NestedRunAlternates(before);
      assert Run(0, calls) == Step(Run(0, before), c);
      assert RunEvents(0, calls) == RunEvents(0, before) + StepEvents(Run(0, before), c);
      StepKeepsAlternation(Run(0, before), RunEvents(0, before), c);
    }
  }

  /** A prefix of a nested sequence, without its last call, is nested, and the whole sequence
      shuts down no more than it initializes. */
  lemma {:induction false} NestedPrefix(calls: seq<Call>)
    requires Nested(calls) && calls != []
    ensures Nested(calls[..|calls| - 1])
    ensures Shuts(calls) <= Inits(calls)
    ensures var c := calls[|calls| - 1];
            Inits(calls) == Inits(calls[..|calls| - 1]) + (if c == Init then 1 else 0)
            && Shuts(calls) == Shuts(calls[..|calls| - 1]) + (if c == Shut then 1 else 0)
  {
    var before := calls[..|calls| - 1];
    forall k | 0 <= k <= |before|
      ensures Shuts(before[..k]) <= Inits(before[..k])
    {
      assert before[..k] == calls[..k];
    }
    assert calls[..|calls|] == calls;
  }

  /** One call on a positive-iff-odd count with alternating events: an initialization that does
      not wrap, or a shutdown of a positive count, keeps both properties and moves the count by
      one. */
  lemma {:induction false} StepKeepsAlternation(r: U32, events: seq<Event>, c: Call)
    requires Alternating(events) && (r > 0 <==> |events| % 2 == 1)
    requires c == Init ==> r + 1 < Two32
    requires c == Shut ==> r >= 1
    ensures Step(r, c) == (if c == Init then r + 1 else r - 1)
    ensures Alternating(events + StepEvents(r, c))
    ensures Step(r, c) > 0 <==> |events + StepEvents(r, c)| % 2 == 1
  {
    if c == Init && r == 0 {
      AlternatingSnoc(events, Startup);
    } else if c == Shut && r == 1 {
      AlternatingSnoc(events, Cleanup);
    } else {
      assert events + StepEvents(r, c) == events;
    }
  }

  /** An alternating run of events stays alternating when the event due next is appended. */
  lemma AlternatingSnoc(events: seq<Event>, e: Event)
    requires Alternating(events)
    requires e == (if |events| % 2 == 0 then Startup else Cleanup)
    ensures Alternating(events + [e])
  {
  }

  /** The counter itself, with the platform events it has caused so far and the text of the
      last failed start-up. */
  class InstanceCounter {
    var count: U32
    var events: seq<Event>
    var initError: string

    constructor ()
      ensures count == 0 && events == [] && initError == []
    {
      count := 0;
      events := [];
      initError := [];
    }

    /** `internalInitialize`. `startupResult` and `startupText` are what the platform start-up
        reports (0 for success); a failure is reported with its error text, and the counter
        stays incremented. */
    method Initialize(startupResult: int, startupText: string) returns (ok: bool, error: string)
      modifies this
      ensures count == Step(old(count), Init)
      ensures events == old(events) + StepEvents(old(count), Init)
      ensures ok <==> old(count) != 0 || startupResult == 0
      ensures !ok ==> initError == ErrorText(startupResult, startupText) && error == initError
      ensures ok ==> initError == old(initError)
    {
      var previous := count;
      count := (count + 1) % Two32;
      ok := true;
      error := [];
      if previous == 0 {
        events := events + [Startup];
        if startupResult != 0 {
          initError := ErrorString(startupResult, startupText);
          error := initError;
          ok := false;
        }
      }
    }

    /** `internalShutdown`. */
    method Shutdown()
      modifies this
      ensures count == Step(old(count), Shut)
      ensures events == old(events) + StepEvents(old(count), Shut)
      ensures initError == old(initError)
    {
      var previous := count;
      count := (count - 1) % Two32;
      if previous == 1 {
        events := events + [Cleanup];
      }
    }
  }
}
