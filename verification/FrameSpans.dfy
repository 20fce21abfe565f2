/**
 Open-span counters: how many open call frames act as each address, kept by the frame
 stack's push and return hooks for the Stylus `reentrant` flag.
 */
module FrameSpans {
  import opened Words
  import opened Ledger

  const U32_MAX: nat := 0xFFFF_FFFF
  const CALL_STACK_LIMIT: nat := 1024

  datatype Scheme = Call | CallCode | DelegateCall | StaticCall

  datatype FrameInput = CallInput(scheme: Scheme, target: Address) | CreateInput

  datatype Frame = Frame(input: FrameInput, finished: bool)

  type Spans = map<Address, nat>

  function SpanOf(spans: Spans, a: Address): nat {
    if a in spans then spans[a] else 0
  }

  /** The address whose span a frame opens. */
  function SpanAddress(input: FrameInput): Option<Address> {
    if input.CallInput? && input.scheme != DelegateCall && input.scheme != CallCode then Some(input.target) else None
  }

  /** Open frames that act as `a` through a non-delegate call. */
  function OpenFrames(stack: seq<Frame>, a: Address): (n: nat)
    ensures n <= |stack|
  {
    if stack == [] then 0
    else
      var top := stack[|stack| - 1];
      OpenFrames(stack[..|stack| - 1], a) + if SpanAddress(top.input) == Some(a) then 1 else 0
  }

  /** Marking the top frame as finished opens and closes nothing. */
  lemma MarkKeepsOpenFrames(stack: seq<Frame>, a: Address)
    requires stack != []
    ensures OpenFrames(stack[|stack| - 1 := stack[|stack| - 1].(finished := true)], a) == OpenFrames(stack, a)
  {
    var marked := stack[|stack| - 1 := stack[|stack| - 1].(finished := true)];
    assert marked[..|stack| - 1] == stack[..|stack| - 1];
  }

  // ---------- What a step of the execution loop does ----------

  datatype State = State(stack: seq<Frame>, spans: Spans)

  /** Every counter is the number of open frames, only frames below the depth limit were pushed, and no frame
      under the top is finished. */
  ghost predicate Exact(s: State) {
    && (forall a: Address :: SpanOf(s.spans, a) == OpenFrames(s.stack, a))
    && |s.stack| <= CALL_STACK_LIMIT + 1
    && (forall i :: 0 <= i < |s.stack| - 1 ==> !s.stack[i].finished)
  }

  /** Whether a frame is pushed: the call depth and the caller's other checks decide. */
  predicate Pushes(s: State, passes: bool) {
    passes && |s.stack| <= CALL_STACK_LIMIT
  }

  function Init(s: State, input: FrameInput, passes: bool): State {
    if !Pushes(s, passes) then s
    else
      var stack := s.stack + [Frame(input, false)];
      match SpanAddress(input)
      case Some(a) => State(stack, s.spans[a := SpanOf(s.spans, a) + 1])
      case None => State(stack, s.spans)
  }

  function Returned(s: State): State
    requires s.stack != []
  {
    var top := s.stack[|s.stack| - 1];
    if !top.finished then s
    else
      var rest := s.stack[..|s.stack| - 1];
      match SpanAddress(top.input)
      case Some(a) => State(rest, if a in s.spans then s.spans[a := SatSub(s.spans[a], 1)] else s.spans)
      case None => State(rest, s.spans)
  }

  function Finished(s: State): State
    requires s.stack != []
  {
    s.(stack := s.stack[|s.stack| - 1 := s.stack[|s.stack| - 1].(finished := true)])
  }

  /** One turn of the loop: the top frame asks for a call, which is pushed or answered at once, or it finishes. */
  datatype Step = Ask(input: FrameInput, passes: bool) | Finish

  function Next(s: State, step: Step): State
    requires s.stack != []
  {
    match step
    case Ask(input, passes) => if Pushes(s, passes) then Init(s, input, passes) else Returned(Init(s, input, passes))
    case Finish => Returned(Finished(s))
  }

  /** The state after a transaction's first frame and some steps; an empty stack ends the run. */
  function Run(input: FrameInput, passes: bool, steps: seq<Step>): State {
    if steps == [] then Init(State([], map[]), input, passes)
    else
      var s := Run(input, passes, steps[..|steps| - 1]);
      if s.stack == [] then s else Next(s, steps[|steps| - 1])
  }

  // ---------- The counters are exact ----------

  ghost predicate Running(s: State) {
    Exact(s) && (s.stack != [] ==> !s.stack[|s.stack| - 1].finished)
  }

  lemma InitKeepsExact(s: State, input: FrameInput, passes: bool)
    requires Running(s)
    ensures Running(Init(s, input, passes))
    ensures forall a: Address :: SpanOf(Init(s, input, passes).spans, a) <= U32_MAX
  {
    var t := Init(s, input, passes);
    if Pushes(s, passes) {
      assert t.stack[..|t.stack| - 1] == s.stack;
    }
    forall a: Address
      ensures SpanOf(t.spans, a) == OpenFrames(t.stack, a)
    {
      assert SpanOf(s.spans, a) == OpenFrames(s.stack, a);
    }
  }

  /** Closing a finished frame's span takes one from a counter that is at least one. */
  lemma ReturnKeepsExact(s: State)
    requires Exact(s) && s.stack != []
    ensures Running(Returned(s))
    ensures s.stack[|s.stack| - 1].finished ==>
      forall a :: SpanAddress(s.stack[|s.stack| - 1].input) == Some(a) ==> a in s.spans && s.spans[a] >= 1
  {
    var t, top := Returned(s), s.stack[|s.stack| - 1];
    forall a: Address
      ensures SpanOf(s.spans, a) == OpenFrames(s.stack[..|s.stack| - 1], a) + if SpanAddress(top.input) == Some(a) then 1 else 0
    {
      assert SpanOf(s.spans, a) == OpenFrames(s.stack, a);
    }
  }

  lemma FinishKeepsExact(s: State)
    requires Running(s) && s.stack != []
    ensures Exact(Finished(s))
  {
    forall a: Address
      ensures SpanOf(Finished(s).spans, a) == OpenFrames(Finished(s).stack, a)
    {
      MarkKeepsOpenFrames(s.stack, a);
    }
  }

  /** In every run each counter is the number of open non-delegate call frames acting as its address, and once
      the last frame is popped every counter is zero. */
  lemma {:induction false} RunsCountOpenFrames(input: FrameInput, passes: bool, steps: seq<Step>)
    ensures Running(Run(input, passes, steps))
    ensures Run(input, passes, steps).stack == [] ==>
      forall a: Address :: SpanOf(Run(input, passes, steps).spans, a) == 0
  {
    if steps == [] {
      InitKeepsExact(State([], map[]), input, passes);
    } else {
      var s, step := Run(input, passes, steps[..|steps| - 1]), steps[|steps| - 1];
      RunsCountOpenFrames(input, passes, steps[..|steps| - 1]);
      if s.stack != [] {
        match step {
          case Ask(next, passes) => InitKeepsExact(s, next, passes);
          case Finish =>
            FinishKeepsExact(s);
            ReturnKeepsExact(Finished(s));
        }
      }
    }
  }

  // ---------- The hooks ----------

  class Evm {
    var stack: seq<Frame>
    var spans: Spans

    constructor ()
      ensures Now() == State([], map[])
    {
      stack := [];
      spans := map[];
    }

    ghost function Now(): State
      reads this
    {
      State(stack, spans)
    }

    /** Pushes a frame and opens its span, or answers at once. */
    method FrameInit(input: FrameInput, passes: bool) returns (pushed: bool)
      requires Running(Now())
      modifies this
      ensures pushed <==> Pushes(old(Now()), passes)
      ensures Now() == Init(old(Now()), input, passes)
      ensures Running(Now())
    {
      InitKeepsExact(Now(), input, passes);
      var span := SpanAddress(input);
      pushed := passes && |stack| <= CALL_STACK_LIMIT;
      if pushed {
        stack := stack + [Frame(input, false)];
        if span.Some? {
          spans := spans[span.value := SpanOf(spans, span.value) + 1];
        }
      }
    }

    /** Closes the span of a finished top frame and pops it; says whether the last frame is gone. */
    method FrameReturnResult() returns (done: bool)
      requires Exact(Now()) && stack != []
      modifies this
      ensures Now() == Returned(old(Now()))
      ensures Running(Now())
      ensures done <==> stack == []
    {
      ReturnKeepsExact(Now());
      var top := stack[|stack| - 1];
      if top.finished {
        var span := SpanAddress(top.input);
        if span.Some? && span.value in spans {
          spans := spans[span.value := SatSub(spans[span.value], 1)];
        }
        stack := stack[..|stack| - 1];
      }
      done := stack == [];
    }

    /** Whether a program entered by the top frame runs with the reentrant flag. */
    method Reentrant(a: Address) returns (r: bool)
      requires Running(Now())
      ensures r <==> OpenFrames(stack, a) > 1
    {
      r := SpanOf(spans, a) > 1;
    }
  }
}
