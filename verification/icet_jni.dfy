/** The JNI entry points through which the managed caller drives a context.
    Each one checks its arguments, then either forwards to the context or
    returns without touching it. A handle is the address of a native context
    held in a `jlong`: 0, the address of a live context, or the address of a
    context that `destroyNativeContext` has already deleted. */
module IcetJni {
  import opened Wrappers
  import opened CentroidRegistry
  import opened ResultBuffer
  import opened IcetContext

  datatype Handle =
    | NullHandle
    | Live(ctx: Context)
    | Freed

  /** Every entry point dereferences a non-zero handle without further check,
      so a handle whose context was deleted must not be passed again. */
  predicate Usable(h: Handle)
  {
    !h.Freed?
  }

  /** Why an entry point returned without reaching the context. */
  datatype Rejection =
    | NullContext
    | BadPositionLength(length: nat)
    | NullSubImage
    | NullCamPos
    | BadCamPosLength(length: nat)

  /** The handle after the call, and the rejection if there was one. */
  datatype Reply = Reply(handle: Handle, rejection: Option<Rejection>)

  /** `createNativeContext`: a fresh context behind a non-zero handle. */
  function CreateNativeContext(): (h: Handle)
    ensures h.Live? && h.ctx.session.None?
    ensures forall id :: id !in h.ctx.positions
    ensures |h.ctx.colorBuffer| == 0
  {
    Live(Create())
  }

  /** `destroyNativeContext`: deletes the context behind a non-zero handle;
      a zero handle is left alone. The caller's `jlong` keeps the address,
      which from then on refers to freed memory. */
  function DestroyNativeContext(h: Handle): (r: Reply)
    requires Usable(h)
    ensures h.NullHandle? ==> r == Reply(h, Some(NullContext))
    ensures h.Live? ==> r.handle.Freed? && r.rejection.None?
    ensures !Usable(r.handle) <==> h.Live?
  {
    match h
    case NullHandle => Reply(h, Some(NullContext))
    case Live(_) => Reply(Freed, None)
  }

  /** `setupICET`: forwards to the context unless the handle is zero. */
  function SetupICET(h: Handle, comm: Communicator, width: int, height: int): (r: Reply)
    requires Usable(h)
    ensures r.rejection.Some? <==> h.NullHandle?
    ensures r.rejection.Some? ==> r.handle == h && r.rejection.value == NullContext
    ensures r.rejection.None? ==>
      && r.handle.Live?
      && r.handle.ctx.positions == h.ctx.positions
      && r.handle.ctx.colorBuffer == h.ctx.colorBuffer
      && r.handle.ctx.session ==
           (if comm == CommNull then h.ctx.session else Some(Tile(width, height)))
  {
    match h
    case NullHandle => Reply(h, Some(NullContext))
    case Live(c) => Reply(Live(IcetContext.SetupICET(c, comm, width, height)), None)
  }

  /** `setProcessorCentroid`: forwards exactly the three coordinates of a
      length-3 array; a zero handle or any other length is rejected. */
  function SetProcessorCentroid(h: Handle, id: ProcessId, position: seq<real>): (r: Reply)
    requires Usable(h)
    ensures r.rejection.Some? <==> h.NullHandle? || |position| != 3
    ensures r.rejection.Some? ==> r.handle == h
    ensures h.Live? && |position| != 3 ==> r.rejection == Some(BadPositionLength(|position|))
    ensures r.rejection.None? ==>
      && r.handle.Live?
      && |position| == 3
      && id in r.handle.ctx.positions
      && r.handle.ctx.positions[id] == position
      && r.handle.ctx.positions.Keys == h.ctx.positions.Keys + {id}
      && (forall other :: other in h.ctx.positions && other != id ==>
            r.handle.ctx.positions[other] == h.ctx.positions[other])
      && r.handle.ctx.session == h.ctx.session
      && r.handle.ctx.colorBuffer == h.ctx.colorBuffer
  {
    match h
    case NullHandle => Reply(h, Some(NullContext))
    case Live(c) =>
      if |position| != 3 then Reply(h, Some(BadPositionLength(|position|)))
      else Reply(Live(IcetContext.SetProcessorCentroid(c, id, position)), None)
  }

  /** The argument checks of `compositeFrame` as written: zero handle, null
      sub-image buffer, null camera array, in that order. The length of the
      camera array is not checked. */
  function CompositeFrameGuardAsWritten(h: Handle, subImage: Option<seq<byte>>, camPos: Option<seq<real>>): (r: Option<Rejection>)
    requires Usable(h)
    ensures r.None? <==> h.Live? && subImage.Some? && camPos.Some?
    ensures h.NullHandle? ==> r == Some(NullContext)
    ensures h.Live? && subImage.None? ==> r == Some(NullSubImage)
  {
    if h.NullHandle? then Some(NullContext)
    else if subImage.None? then Some(NullSubImage)
    else if camPos.None? then Some(NullCamPos)
    else None
  }

  /** `compositeFrame` as written: after the checks, forwards to the context
      and drops the returned view (the entry point returns nothing). A camera
      array of any length is forwarded, so the context's need for three
      coordinates falls on the caller. */
  function CompositeFrame(h: Handle, subImage: Option<seq<byte>>, camPos: Option<seq<real>>,
                          width: int, height: int, run: EngineRun): (r: Reply)
    requires Usable(h)
    requires CompositeFrameGuardAsWritten(h, subImage, camPos).None? ==>
      CanComposite(h.ctx, camPos.value, width, height, run)
    ensures r.rejection.Some? <==> h.NullHandle? || subImage.None? || camPos.None?
    ensures r.rejection.Some? ==> r.handle == h
    ensures r.rejection.None? ==>
      && r.handle.Live?
      && r.handle.ctx.session == h.ctx.session
      && r.handle.ctx.positions == h.ctx.positions
      && |r.handle.ctx.colorBuffer| >= |h.ctx.colorBuffer|
    ensures r.rejection.None? ==>
      r.handle == Live(IcetContext.CompositeFrame(h.ctx, camPos.value, width, height, run).ctx)
  {
    match CompositeFrameGuardAsWritten(h, subImage, camPos)
    case Some(why) => Reply(h, Some(why))
    case None => Reply(Live(IcetContext.CompositeFrame(h.ctx, camPos.value, width, height, run).ctx), None)
  }

  /** The checks as written let a two-coordinate camera array through to a
      context that would accept the same call with three coordinates but
      reads a third coordinate it was not given. */
  lemma AsWrittenGuardForwardsShortCamPos()
    ensures var ready := IcetContext.SetProcessorCentroid(
              IcetContext.SetupICET(Create(), CommWorld, 1, 1), 0, [0.0, 0.0, 0.0]);
            var run := EngineRun(0, 1, None);
            && CompositeFrameGuardAsWritten(Live(ready), Some([]), Some([1.0, 2.0])).None?
            && !CanComposite(ready, [1.0, 2.0], 1, 1, run)
            && CanComposite(ready, [1.0, 2.0, 3.0], 1, 1, run)
  {
  }

  /** The checks of `compositeFrame` with the camera array held to three
      coordinates, as `setProcessorCentroid` holds anchors. */
  function CompositeFrameGuard(h: Handle, subImage: Option<seq<byte>>, camPos: Option<seq<real>>): (r: Option<Rejection>)
    requires Usable(h)
    ensures r.None? <==> h.Live? && subImage.Some? && camPos.Some? && |camPos.value| == 3
    ensures camPos.None? || |camPos.value| == 3 ==> r == CompositeFrameGuardAsWritten(h, subImage, camPos)
  {
    match CompositeFrameGuardAsWritten(h, subImage, camPos)
    case Some(why) => Some(why)
    case None => if |camPos.value| != 3 then Some(BadCamPosLength(|camPos.value|)) else None
  }

  /** Whatever the corrected checks forward meets the context's need for three
      camera coordinates. */
  lemma CompositeFrameGuardForwardsThreeCoordinates(h: Handle, subImage: Option<seq<byte>>, camPos: Option<seq<real>>, width: int, height: int, run: EngineRun)
    requires Usable(h)
    requires CompositeFrameGuard(h, subImage, camPos).None?
    requires h.Live? && h.ctx.session.Some? ==> CoversRange(h.ctx.positions, run.size)
    requires run.rank == 0 && run.colorData.Some? ==>
      |run.colorData.value| >= FrameBytes(width, height)
    ensures h.Live? && camPos.Some?
    ensures CanComposite(h.ctx, camPos.value, width, height, run)
  {
  }

  /** `compositeFrame` with the corrected checks: no camera-array length
      obligation remains with the caller. */
  function CompositeFrameChecked(h: Handle, subImage: Option<seq<byte>>, camPos: Option<seq<real>>,
                                 width: int, height: int, run: EngineRun): (r: Reply)
    requires Usable(h)
    requires CompositeFrameGuard(h, subImage, camPos).None? && h.ctx.session.Some? ==>
      CoversRange(h.ctx.positions, run.size)
    requires CompositeFrameGuard(h, subImage, camPos).None? && run.rank == 0 && run.colorData.Some? ==>
      |run.colorData.value| >= FrameBytes(width, height)
    ensures r.rejection.Some? <==> h.NullHandle? || subImage.None? || camPos.None? || |camPos.value| != 3
    ensures r.rejection.Some? ==> r.handle == h
    ensures camPos.Some? && |camPos.value| == 3 ==> r == CompositeFrame(h, subImage, camPos, width, height, run)
  {
    match CompositeFrameGuard(h, subImage, camPos)
    case Some(why) => Reply(h, Some(why))
    case None =>
      CompositeFrameGuardForwardsThreeCoordinates(h, subImage, camPos, width, height, run);
      CompositeFrame(h, subImage, camPos, width, height, run)
  }
}
