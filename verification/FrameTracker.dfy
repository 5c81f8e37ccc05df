/**
 The open-frame tracker: the callers of the open frames and, per address, how many open frames act as it.

 `stack` is the frame stack of the underlying interpreter, which decides whether a frame is opened at all
 and when it is finished; the tracker sees only the calls that open and return frames.
 */
module FrameTracker {
  import opened Words
  import opened Ledger

  type U32 = x: nat | x <= 0xFFFF_FFFF

  /** Calls nest at most this deep below the outermost frame. */
  const DEPTH_LIMIT: nat := 1024

  datatype Scheme = Call | CallCode | DelegateCall | StaticCall

  datatype Input =
    | CallInput(scheme: Scheme, caller: Address, target: Address)
    | CreateInput(caller: Address)
    | EmptyInput

  datatype Frame = Frame(input: Input, finished: bool)

  /** The address whose span a frame opens. */
  function SpanAddress(input: Input): Option<Address> {
    match input
    case CallInput(scheme, _, target) => if scheme == DelegateCall || scheme == CallCode then None else Some(target)
    case _ => None
  }

  function CallerOf(input: Input): Option<Address> {
    match input
    case CallInput(_, caller, _) => Some(caller)
    case CreateInput(caller) => Some(caller)
    case EmptyInput => None
  }

  /** The frame was opened by a call, plain or static, to `a`. */
  predicate ActsAs(f: Frame, a: Address) {
    f.input.CallInput? && (f.input.scheme == Call || f.input.scheme == StaticCall) && f.input.target == a
  }

  /** The frame was opened by `a`, by a call of any scheme or by a creation. */
  predicate OpenedBy(f: Frame, a: Address) {
    (f.input.CallInput? && f.input.caller == a) || (f.input.CreateInput? && f.input.caller == a)
  }

  // ------------------------------------------------------------------ runs of the interpreter

  datatype Event =
    | Init(input: Input, opens: bool)  // a frame is requested, and opened or answered at once
    | Finish                           // the innermost frame has run to its end
    | Return                           // a result is handed back

  function Last(stack: seq<Frame>): Frame
    requires stack != []
  {
    stack[|stack| - 1]
  }

  function Front(stack: seq<Frame>): seq<Frame>
    requires stack != []
  {
    stack[..|stack| - 1]
  }

  /** What the interpreter does next: only an unfinished innermost frame runs, and an empty input opens nothing. */
  ghost predicate Enabled(stack: seq<Frame>, ev: Event) {
    match ev
    case Init(input, opens) =>
      && (stack == [] || !Last(stack).finished)
      && (opens ==> input != EmptyInput && |stack| <= DEPTH_LIMIT)
    case Finish => stack != [] && !Last(stack).finished
    case Return => stack != []
  }

  function After(stack: seq<Frame>, ev: Event): seq<Frame>
    requires ev.Init? || stack != []
  {
    match ev
    case Init(input, opens) => if opens then stack + [Frame(input, false)] else stack
    case Finish => Front(stack) + [Last(stack).(finished := true)]
    case Return => if Last(stack).finished then Front(stack) else stack
  }

  ghost predicate Legal(stack: seq<Frame>, events: seq<Event>)
    decreases |events|
  {
    events == [] || (Enabled(stack, events[0]) && Legal(After(stack, events[0]), events[1..]))
  }

  function AfterAll(stack: seq<Frame>, events: seq<Event>): seq<Frame>
    requires Legal(stack, events)
    decreases |events|
  {
    if events == [] then stack else AfterAll(After(stack, events[0]), events[1..])
  }

  // ------------------------------------------------------------------ what is tracked

  function Callers(stack: seq<Frame>): seq<Address> {
    if stack == [] then []
    else Callers(Front(stack)) + (if CallerOf(Last(stack).input).Some? then [CallerOf(Last(stack).input).value] else [])
  }

  /** The number of open frames that act as `a` on a call of their own. */
  function Spans(stack: seq<Frame>, a: Address): nat {
    if stack == [] then 0
    else Spans(Front(stack), a) + if SpanAddress(Last(stack).input) == Some(a) then 1 else 0
  }

  function Count(spans: map<Address, U32>, a: Address): nat {
    if a in spans then spans[a] else 0
  }

  ghost predicate WellFormed(stack: seq<Frame>) {
    |stack| <= DEPTH_LIMIT + 1 && forall i :: 0 <= i < |stack| ==> stack[i].input != EmptyInput
  }

  lemma {:induction false} SpansBounded(stack: seq<Frame>, a: Address)
    ensures Spans(stack, a) <= |stack|
  {
    if stack != [] {
      SpansBounded(Front(stack), a);
    }
  }

  /** The callers are listed outermost first, one for each open frame. */
  lemma {:induction false} CallersListed(stack: seq<Frame>, i: nat)
    requires WellFormed(stack)
    ensures |Callers(stack)| == |stack|
    ensures i < |stack| ==> OpenedBy(stack[i], Callers(stack)[i])
  {
    if stack != [] {
      CallersListed(Front(stack), i);
    }
  }

  lemma {:induction false} SpanOpen(stack: seq<Frame>, a: Address)
    ensures Spans(stack, a) > 0 <==> exists i :: 0 <= i < |stack| && ActsAs(stack[i], a)
  {
    if stack != [] {
      SpanOpen(Front(stack), a);
      if i :| 0 <= i < |stack| && ActsAs(stack[i], a) {
        assert i < |stack| - 1 ==> Front(stack)[i] == stack[i];
      }
      if i :| 0 <= i < |stack| - 1 && ActsAs(Front(stack)[i], a) {
        assert stack[i] == Front(stack)[i];
      }
    }
  }

  /** More than one span means that two different open frames act as the address. */
  lemma {:induction false} SpanReopened(stack: seq<Frame>, a: Address)
    ensures Spans(stack, a) > 1 <==>
            exists i, j :: 0 <= i < j < |stack| && ActsAs(stack[i], a) && ActsAs(stack[j], a)
  {
    if stack != [] {
      var front := Front(stack);
      SpanReopened(front, a);
      SpanOpen(front, a);
      if i, j :| 0 <= i < j < |front| && ActsAs(front[i], a) && ActsAs(front[j], a) {
        assert stack[i] == front[i] && stack[j] == front[j];
      }
      if i, j :| 0 <= i < j < |stack| && ActsAs(stack[i], a) && ActsAs(stack[j], a) {
        assert front[i] == stack[i];
        assert j < |front| ==> front[j] == stack[j];
      }
      if i :| 0 <= i < |front| && ActsAs(front[i], a) {
        assert stack[i] == front[i];
      }
    }
  }

  // ------------------------------------------------------------------ the tracker

  class Tracker {
    var frameCallers: seq<Address>
    var programSpans: map<Address, U32>
    var stack: seq<Frame>

    ghost predicate Valid()
      reads this
    {
      && WellFormed(stack)
      && frameCallers == Callers(stack)
      && forall a :: Count(programSpans, a) == Spans(stack, a)
    }

    constructor ()
      ensures Valid() && stack == [] && frameCallers == [] && programSpans == map[]
    {
      frameCallers, programSpans, stack := [], map[], [];
    }

    method FrameInit(input: Input, opens: bool)
      requires Valid() && Enabled(stack, Init(input, opens))
      modifies this
      ensures Valid() && stack == After(old(stack), Init(input, opens))
    {
      var span, caller := SpanAddress(input), CallerOf(input);
      if !opens {
        return;
      }
      stack := stack + [Frame(input, false)];
      assert Front(stack) == old(stack);
      if span.Some? {
        var a := span.value;
        var count := if a in programSpans then programSpans[a] else 0;
        SpansBounded(old(stack), a);
        programSpans := programSpans[a := count + 1];
      }
      if caller.Some? {
        frameCallers := frameCallers + [caller.value];
      }
    }

    /** The interpreter runs the innermost frame to its end; nothing is tracked. */
    method FrameFinish()
      requires Valid() && Enabled(stack, Finish)
      modifies this`stack
      ensures Valid() && stack == After(old(stack), Finish)
    {
      stack := Front(stack) + [Last(stack).(finished := true)];
      assert Front(stack) == Front(old(stack));
    }

    /** Closes the innermost frame if it is finished; its span is open then, so the count never saturates. */
    method FrameReturnResult()
      requires Valid() && Enabled(stack, Return)
      modifies this
      ensures Valid() && stack == After(old(stack), Return)
      ensures Last(old(stack)).finished ==> |frameCallers| == |old(frameCallers)| - 1
      ensures var span := SpanAddress(Last(old(stack)).input);
              Last(old(stack)).finished && span.Some? ==>
                && Count(old(programSpans), span.value) > 0
                && programSpans == old(programSpans)[span.value := Count(old(programSpans), span.value) - 1]
    {
      var top := Last(stack);
      var span := if top.finished then SpanAddress(top.input) else None;
      CallersListed(stack, 0);
      if top.finished {
        frameCallers := if frameCallers == [] then [] else frameCallers[..|frameCallers| - 1];
      }
      if span.Some? && span.value in programSpans {
        programSpans := programSpans[span.value := Monus(programSpans[span.value], 1)];
      }
      if top.finished {
        stack := Front(stack);
        forall a
          ensures Count(programSpans, a) == Spans(stack, a)
        {
          assert Count(old(programSpans), a) == Spans(old(stack), a);
        }
      }
    }

    /** Whether another open frame already acts as the address of the innermost frame. */
    method Reentrant(target: Address) returns (r: bool)
      requires Valid()
      ensures r <==> exists i, j :: 0 <= i < j < |stack|
                                    && ActsAs(stack[i], target) && ActsAs(stack[j], target)
    {
      SpanReopened(stack, target);
      r := Count(programSpans, target) > 1;
    }

    /** The caller of the frame that is running, if any is open. */
    method CallingFrameCaller() returns (r: Option<Address>)
      requires Valid()
      ensures if stack == [] then r == None else r.Some? && OpenedBy(Last(stack), r.value)
    {
      if stack != [] {
        CallersListed(stack, |stack| - 1);
      }
      r := if frameCallers == [] then None else Some(frameCallers[|frameCallers| - 1]);
    }

    /** Tracker and frame stack stay in step over every run, and nothing is left once the outermost frame returned. */
    method Run(events: seq<Event>)
      requires Valid() && Legal(stack, events)
      modifies this
      ensures Valid() && stack == AfterAll(old(stack), events)
      ensures stack == [] ==> frameCallers == [] && forall a :: Count(programSpans, a) == 0
    {
      assert events[0..] == events;
      for i := 0 to |events|
        invariant Valid() && Legal(stack, events[i..])
        invariant AfterAll(stack, events[i..]) == AfterAll(old(stack), events)
      {
        assert events[i..][1..] == events[i + 1..];
        match events[i] {
          case Init(input, opens) => FrameInit(input, opens);
          case Finish => FrameFinish();
          case Return => FrameReturnResult();
        }
      }
      assert stack == [] ==> forall a :: Count(programSpans, a) == Spans(stack, a);
    }
  }
}
