/** Sequences of calls on one context, and the invariants that hold along
    them: the context becomes ready exactly through a setup that found a
    communicator, and the result buffer never shrinks. */
module ContextLifecycle {
  import opened Wrappers
  import opened CentroidRegistry
  import opened IcetContext

  datatype Call =
    | Setup(comm: Communicator, width: int, height: int)
    | SetCentroid(id: ProcessId, position: Position)
    | Composite(camPos: seq<real>, width: int, height: int, run: EngineRun)

  /** What the call needs of the state it is issued in. */
  predicate Pre(c: Context, call: Call)
  {
    call.Composite? ==> CanComposite(c, call.camPos, call.width, call.height, call.run)
  }

  function Step(c: Context, call: Call): Context
    requires Pre(c, call)
  {
    match call
    case Setup(comm, width, height) => SetupICET(c, comm, width, height)
    case SetCentroid(id, position) => IcetContext.SetProcessorCentroid(c, id, position)
    case Composite(camPos, width, height, run) => CompositeFrame(c, camPos, width, height, run).ctx
  }

  /** Every call of the trace meets its needs in the state it reaches. */
  predicate Admissible(c: Context, calls: seq<Call>)
    decreases |calls|
  {
    |calls| == 0 || (Pre(c, calls[0]) && Admissible(Step(c, calls[0]), calls[1..]))
  }

  function Run(c: Context, calls: seq<Call>): Context
    requires Admissible(c, calls)
    decreases |calls|
  {
    if |calls| == 0 then c else Run(Step(c, calls[0]), calls[1..])
  }

  predicate SuccessfulSetup(call: Call)
  {
    call.Setup? && call.comm != CommNull
  }

  /** A context holds an engine session after a trace exactly when it held
      one before or the trace contains a setup that found a communicator. */
  lemma {:induction false} ReadyIffSuccessfulSetup(c: Context, calls: seq<Call>)
    requires Admissible(c, calls)
    ensures Run(c, calls).session.Some? <==>
      c.session.Some? || exists k :: 0 <= k < |calls| && SuccessfulSetup(calls[k])
    decreases |calls|
  {
    if |calls| == 0 {
      return;
    }
    var next := Step(c, calls[0]);
    assert next.session.Some? <==> c.session.Some? || SuccessfulSetup(calls[0]);
    ReadyIffSuccessfulSetup(next, calls[1..]);
    if exists k :: 0 <= k < |calls| && SuccessfulSetup(calls[k]) {
      var k :| 0 <= k < |calls| && SuccessfulSetup(calls[k]);
      if k > 0 {
        assert calls[1..][k - 1] == calls[k];
      }
    }
    if exists k :: 0 <= k < |calls[1..]| && SuccessfulSetup(calls[1..][k]) {
      var k :| 0 <= k < |calls[1..]| && SuccessfulSetup(calls[1..][k]);
      assert calls[k + 1] == calls[1..][k];
    }
  }

  /** No trace shrinks the result buffer. */
  lemma {:induction false} BufferNeverShrinks(c: Context, calls: seq<Call>)
    requires Admissible(c, calls)
    ensures |Run(c, calls).colorBuffer| >= |c.colorBuffer|
    decreases |calls|
  {
    if |calls| > 0 {
      BufferNeverShrinks(Step(c, calls[0]), calls[1..]);
    }
  }

  /** Until a setup finds a communicator, every composite on a new context
      returns `(nullptr, 0)` and leaves the context as it was. */
  lemma CompositeBeforeSetupIsEmpty(calls: seq<Call>, camPos: seq<real>, width: int, height: int, run: EngineRun)
    requires Admissible(Create(), calls)
    requires forall k :: 0 <= k < |calls| ==> !SuccessfulSetup(calls[k])
    ensures Run(Create(), calls).session.None?
    ensures CanComposite(Run(Create(), calls), camPos, width, height, run)
    ensures CompositeFrame(Run(Create(), calls), camPos, width, height, run).view == NullView
    ensures CompositeFrame(Run(Create(), calls), camPos, width, height, run).ctx == Run(Create(), calls)
  {
    ReadyIffSuccessfulSetup(Create(), calls);
  }
}
