/** The IceT context object of one process: its engine session (created by
    `setupICET`), its centroid registry and its result buffer, together with
    the per-frame `compositeFrame` orchestration. The IceT engine and the MPI
    communicator are replaced by what the orchestration observes of them:
    whether a communicator is available, this process's rank, the group size
    and the colour bytes the engine exposes on the root. */
module IcetContext {
  import opened Wrappers
  import opened CentroidRegistry
  import opened ResultBuffer
  import opened VisibilityOrder

  /** The output tile registered with the engine at setup: origin (0, 0). */
  datatype Tile = Tile(width: int, height: int)

  /** `session` is `None` while `m_context` is null. */
  datatype Context = Context(session: Option<Tile>, positions: Registry, colorBuffer: seq<byte>)

  /** What `getMPICommunicator` can hand back. */
  datatype Communicator = CommNull | CommWorld

  /** What one collective composite yields to this process: its rank, the
      group size and, on the root, the colour data of the composited image
      (`None` when the engine exposes none). */
  datatype EngineRun = EngineRun(rank: int, size: nat, colorData: Option<seq<byte>>)

  /** The returned `(pointer, length)` pair: `NullView` is `(nullptr, 0)`,
      `BufferView(bytes)` points at the start of the result buffer and covers
      `bytes`. */
  datatype View = NullView | BufferView(bytes: seq<byte>)

  /** The outcome of one `compositeFrame`: the context afterwards, the pair
      returned, and the merge order handed to the engine (`None` when the call
      stopped before reaching the engine). */
  datatype Frame = Frame(ctx: Context, view: View, order: Option<seq<nat>>)

  /** 2^64: `size_t` arithmetic wraps modulo this. */
  const SizeModulus: nat := 0x1_0000_0000_0000_0000

  /** `dataSize`: the byte count of a `width` by `height` RGBA8 image as
      computed in `size_t`. Both window sizes are converted to `size_t`
      (wrapping a negative value modulo 2^64) and every product wraps too. */
  function FrameBytes(width: int, height: int): (n: nat)
    ensures n < SizeModulus
    ensures 0 <= width < JintLimit && 0 <= height < JintLimit ==> n == width * height * 4
  {
    NonNegativeJintProduct(width, height);
    ((width % SizeModulus * (height % SizeModulus)) % SizeModulus * 4) % SizeModulus
  }

  /** The largest `jint` plus one. */
  const JintLimit: nat := 0x8000_0000

  /** For window sizes a `jint` can hold, no `size_t` product wraps. */
  lemma NonNegativeJintProduct(width: int, height: int)
    ensures 0 <= width < JintLimit && 0 <= height < JintLimit ==>
      && width % SizeModulus == width && height % SizeModulus == height
      && ((width * height) % SizeModulus * 4) % SizeModulus == width * height * 4
  {
    if 0 <= width < JintLimit && 0 <= height < JintLimit {
      MultiplyMonotone(width, JintLimit - 1, height);
      MultiplyMonotone(height, JintLimit - 1, JintLimit - 1);
      var p := width * height;
      assert 0 <= p < 0x4000_0000_0000_0000;
      assert p % SizeModulus == p;
      assert (p * 4) % SizeModulus == p * 4;
    }
  }

  lemma MultiplyMonotone(a: int, b: int, c: int)
    requires 0 <= a <= b && 0 <= c
    ensures 0 <= a * c <= b * c
  {
  }

  /** Negative window sizes wrap instead of being refused: a 0 x -1 window
      copies nothing, a -1 x -1 window copies 4 bytes. */
  lemma WrappedFrameSizes()
    ensures FrameBytes(0, -1) == 0
    ensures FrameBytes(-1, -1) == 4
  {
  }

  /** A new context: no engine session, no anchors, an empty buffer. */
  function Create(): (c: Context)
    ensures c.session.None?
    ensures forall id :: id !in c.positions
    ensures |c.colorBuffer| == 0
  {
    Context(None, map[], [])
  }

  /** `setupICET`: without a communicator nothing happens; otherwise a new
      engine session with one `width` x `height` tile replaces any earlier one. */
  function SetupICET(c: Context, comm: Communicator, width: int, height: int): (r: Context)
    ensures comm == CommNull ==> r == c
    ensures comm != CommNull ==> r.session == Some(Tile(width, height))
    ensures r.positions == c.positions && r.colorBuffer == c.colorBuffer
  {
    if comm == CommNull then c
    else c.(session := Some(Tile(width, height)))
  }

  /** `setProcessorCentroid`: records the anchor in the registry and touches
      nothing else of the context. */
  function SetProcessorCentroid(c: Context, id: ProcessId, position: Position): (r: Context)
    ensures id in r.positions && r.positions[id] == position
    ensures r.positions.Keys == c.positions.Keys + {id}
    ensures forall other :: other in c.positions && other != id ==> r.positions[other] == c.positions[other]
    ensures r.session == c.session && r.colorBuffer == c.colorBuffer
  {
    c.(positions := CentroidRegistry.SetProcessorCentroid(c.positions, id, position))
  }

  /** What `compositeFrame` relies on without checking it, once it is past the
      context guard: an anchor for every id of the group, three camera
      coordinates, and on a root that receives colour data, engine output
      covering the `dataSize` bytes copied out of it. */
  predicate CanComposite(c: Context, camPos: seq<real>, width: int, height: int, run: EngineRun)
  {
    c.session.Some? ==>
      && CoversRange(c.positions, run.size)
      && (run.size > 0 ==> |camPos| >= 3)
      && (run.rank == 0 && run.colorData.Some? ==>
            |run.colorData.value| >= FrameBytes(width, height))
  }

  /** `compositeFrame`. Without a session the call returns `(nullptr, 0)` at
      once. Otherwise the visibility order is computed and handed to the
      engine; the root copies the engine's colour data into the result buffer
      and returns a view of it, every other path returns `(nullptr, 0)`. */
  function CompositeFrame(c: Context, camPos: seq<real>, width: int, height: int, run: EngineRun): (r: Frame)
    requires CanComposite(c, camPos, width, height, run)
    ensures r.ctx.session == c.session && r.ctx.positions == c.positions
    ensures c.session.None? ==> r.order.None? && r.ctx == c
    ensures c.session.Some? ==>
      && r.order.Some?
      && |r.order.value| == run.size
      && IsPermutationOfRange(r.order.value, run.size)
      && InRange(r.order.value, run.size)
      && (forall i, j :: 0 <= i < j < run.size ==>
            SquaredDistance(c.positions[r.order.value[i]], camPos)
              <= SquaredDistance(c.positions[r.order.value[j]], camPos))
    ensures r.view.NullView? <==> c.session.None? || run.rank != 0 || run.colorData.None?
    ensures r.view.NullView? ==> r.ctx.colorBuffer == c.colorBuffer
    ensures r.view.BufferView? ==>
      && var n := FrameBytes(width, height);
      && |r.view.bytes| == n
      && r.view.bytes == run.colorData.value[..n]
      && |r.ctx.colorBuffer| == Max(|c.colorBuffer|, n)
      && r.ctx.colorBuffer[..n] == r.view.bytes
      && (forall k :: n <= k < |r.ctx.colorBuffer| ==> r.ctx.colorBuffer[k] == c.colorBuffer[k])
  {
    if c.session.None? then Frame(c, NullView, None)
    else
      var order := ComputeOrder(c.positions, camPos, run.size);
      if run.rank == 0 then
        match run.colorData
        case None => Frame(c, NullView, Some(order))
        case Some(data) =>
          var n := FrameBytes(width, height);
          var buf := Store(c.colorBuffer, data, n);
          Frame(c.(colorBuffer := buf), BufferView(buf[..n]), Some(order))
      else
        Frame(c, NullView, Some(order))
  }

  /** A context that was never set up composites nothing and keeps its state. */
  lemma CompositeOnFreshContextIsEmpty(camPos: seq<real>, width: int, height: int, run: EngineRun)
    ensures CompositeFrame(Create(), camPos, width, height, run) == Frame(Create(), NullView, None)
  {
  }

  /** An 800 x 600 window composited on the root yields a 1,920,000-byte view. */
  lemma RootFrameOf800By600(c: Context, camPos: seq<real>, run: EngineRun)
    requires c.session.Some? && run.rank == 0 && run.colorData.Some?
    requires CanComposite(c, camPos, 800, 600, run)
    ensures CompositeFrame(c, camPos, 800, 600, run).view.BufferView?
    ensures |CompositeFrame(c, camPos, 800, 600, run).view.bytes| == 1920000
  {
  }

  /** A -1 x -1 window on the root copies and returns 4 bytes, as the wrapped
      `size_t` size says. */
  lemma RootFrameOfNegativeWindow(c: Context, camPos: seq<real>, run: EngineRun)
    requires c.session.Some? && run.rank == 0 && run.colorData.Some?
    requires CanComposite(c, camPos, -1, -1, run)
    ensures CompositeFrame(c, camPos, -1, -1, run).view == BufferView(run.colorData.value[..4])
  {
    WrappedFrameSizes();
  }
}
