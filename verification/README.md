# IceT compositing context, modelled in Dafny

This project models the native side of a Java wrapper around the IceT
sort-last image compositing library. Each MPI process renders its own
sub-image. The wrapper's `IcetContext` decides in which order the
sub-images are blended, drives one collective composite per frame, and on
the root process (rank 0) keeps the composited RGBA8 image in a result buffer
that only grows. A thin JNI layer checks the managed caller's arguments before
anything reaches the context.

The model is functional. A context is an immutable record: an optional engine
session, a registry from process id to anchor, and the result-buffer bytes.
Every operation is a pure function from the old context to the new one.

- `wrappers.dfy`: `Option`, which stands in for nullable pointers.
- `centroid_registry.dfy`: the anchor registry (`m_procPositions`) and its update.
- `visibility_order.dfy`: squared camera-to-anchor distances and the insertion sort that orders ids `0 .. n-1`.
- `result_buffer.dfy`: the grow-only byte buffer (`m_colorBuffer`), covering resize and copy.
- `icet_context.dfy`: construction, `setupICET`, `setProcessorCentroid` and `compositeFrame`.
- `context_lifecycle.dfy`: traces of calls on one context, with the invariants that hold along them.
- `icet_jni.dfy`: the JNI entry points' argument checks.

The IceT engine and MPI are replaced by what the orchestration observes of
them:
- whether `getMPICommunicator` returned a communicator (`Communicator`);
- this process's rank and the group size;
- the colour bytes the engine exposes on the root, or none (`EngineRun`).

The merge order handed to `icetCompositeOrder` appears in the result of
`IcetContext.CompositeFrame`, so its properties are stated there. Distances
are compared squared, over reals. The square root is monotone, so it selects
the same orders.

Behaviour of the code that a reader might expect otherwise:
- Ties between equal distances are not ordered by id, because `std::sort` is unstable. `VisibilityOrder.ComputeOrderAgreesWithAnySort` shows that every sorted arrangement sees the same distance at every position.
- A missing anchor is not detected: the registry is indexed unchecked, so "every id of the group has an anchor" is a precondition (`CoversRange`).
- There is only one composite path: colour only, with blending in the computed order.
- The header declares `setCentroids`, a `void` `compositeFrame` with an extra communicator parameter, and a `vector<vector<float>>` registry. The model follows the `.cpp` definitions: `setProcessorCentroid` and the `(pointer, length)` result.
- The `.cpp` never declares `m_procPositions`. Modelling the registry as a map is an inference from the write by id at IcetContext.cpp:49. With the header's vector of vectors, that write would be undefined for an id at or past the vector's size.
- `dataSize` at IcetContext.cpp:117 is computed in `size_t`: a negative width or height wraps modulo 2^64 instead of being refused (`IcetContext.FrameBytes`).

## Model

| member | source | states |
|---|---|---|
| `CentroidRegistry.SetProcessorCentroid` | IcetContext.cpp:47-50 | the id's anchor becomes the given position; the key set gains exactly that id; every other id keeps its anchor |
| `CentroidRegistry.SetProcessorCentroidIdempotent` | IcetContext.cpp:47-50 | repeating the same call leaves the registry as one call does |
| `CentroidRegistry.SetProcessorCentroidLastWriteWins` | IcetContext.cpp:47-50 | a second call for the same id fully replaces the first anchor |
| `CentroidRegistry.SetProcessorCentroidCommutes` | IcetContext.cpp:47-50 | calls for two different ids give the same registry in either order |
| `CentroidRegistry.SetProcessorCentroidExtendsCoverage` | IcetContext.cpp:86-89 | registering a 3-coordinate anchor keeps every id of `[0, n)` readable by the distance loop, and covers id `n` when that is the id set |
| `VisibilityOrder.SquaredDistance` | IcetContext.cpp:87-90 | the camera-to-anchor distance (squared) is never negative |
| `VisibilityOrder.Insert` | IcetContext.cpp:94-97 | inserting an id into an arrangement sorted by distance keeps it sorted and adds exactly that id |
| `VisibilityOrder.SortByDistance` | IcetContext.cpp:94-97 | the result is a permutation of the input ids, sorted by ascending distance |
| `VisibilityOrder.ComputeOrder` | IcetContext.cpp:83-97 | `procs` has length n, holds each id of `[0, n)` exactly once, and is non-decreasing in camera-to-anchor distance |
| `VisibilityOrder.SortedPermutationsAgree` | IcetContext.cpp:94-97 | two sorted arrangements of the same ids see equal distances at every position, so an unstable sort differs only in how ties are ordered |
| `VisibilityOrder.ComputeOrderAgreesWithAnySort` | IcetContext.cpp:94-97 | any permutation of `[0, n)` sorted by distance (whatever `std::sort` returns) matches the model's order distance for distance |
| `VisibilityOrder.ComputeOrderIgnoresOtherIds` | IcetContext.cpp:86-92 | anchors of ids outside `[0, commSize)` do not change the order |
| `VisibilityOrder.ThreeProcessScenario` | IcetContext.cpp:84-97 | anchors (0,0,0), (10,0,0), (5,5,0) seen from the origin are ordered 0, 2, 1 |
| `ResultBuffer.EnsureCapacity` | IcetContext.cpp:119-121 | the buffer's size becomes max(old size, n); its old bytes are kept and new bytes are zero |
| `ResultBuffer.Overwrite` | IcetContext.cpp:123 | the first n bytes come from the engine output; the rest of the buffer is kept and its size is unchanged |
| `ResultBuffer.Store` | IcetContext.cpp:117-123 | after a root-side store the size is max(old size, n), the first n bytes equal the engine output, and the bytes beyond n are the old ones |
| `ResultBuffer.EnsureCapacityComposes` | IcetContext.cpp:119-121 | growing to n and then to m equals growing once to max(n, m) |
| `ResultBuffer.StoreIdempotent` | IcetContext.cpp:117-123 | storing the same image twice leaves the buffer as one store does |
| `ResultBuffer.StoreOverwritesPreviousFrame` | IcetContext.cpp:117-123 | a later image of the same size replaces every byte the earlier one wrote |
| `IcetContext.Create` | IcetContext.cpp:12-17 | a new context has no engine session, no anchors and an empty buffer |
| `IcetContext.SetupICET` | IcetContext.cpp:25-45 | with a null communicator the context is unchanged; otherwise the session is present with a `width` x `height` tile; the registry and buffer are untouched either way |
| `IcetContext.SetProcessorCentroid` | IcetContext.cpp:47-50 | the registry is updated at the id only; the session and the buffer are untouched |
| `IcetContext.CompositeFrame` | IcetContext.cpp:52-130 | without a session: `(null, 0)`, no order, context unchanged. Otherwise the order given to the engine has length `commSize` and is a distance-sorted permutation of `[0, commSize)`. The result is the null view exactly on a non-root rank, with no colour data, or without a session, and then the buffer is unchanged (a 0-byte view of a never-grown buffer may also carry a null pointer; see "## Left out"). On the root with colour data the view has `dataSize` bytes (the `size_t` value of `w*h*4`, for any sign of `w` and `h`) equal to the engine output, the buffer grows to max(old, `dataSize`), and bytes beyond that are kept. The registry and session never change |
| `IcetContext.CompositeOnFreshContextIsEmpty` | IcetContext.cpp:59-62 | compositing on a context that was never set up returns `(null, 0)`, hands no order to the engine, and changes nothing |
| `IcetContext.FrameBytes` | IcetContext.cpp:117 | `dataSize` is below 2^64, and equals `w*h*4` for every non-negative `jint` width and height |
| `IcetContext.WrappedFrameSizes` | IcetContext.cpp:117 | negative sizes wrap: a 0 x -1 window gives 0 bytes, a -1 x -1 window gives 4 |
| `IcetContext.RootFrameOfNegativeWindow` | IcetContext.cpp:117-125 | a -1 x -1 window on the root copies and returns the first 4 engine bytes |
| `IcetContext.RootFrameOf800By600` | IcetContext.cpp:117-125 | an 800 x 600 frame on the root returns a 1,920,000-byte view |
| `ContextLifecycle.ReadyIffSuccessfulSetup` | IcetContext.cpp:12-38 | after any sequence of calls, the context has a session exactly when it had one before or some setup in the sequence found a communicator |
| `ContextLifecycle.BufferNeverShrinks` | IcetContext.cpp:119-121 | no sequence of calls shrinks the result buffer |
| `ContextLifecycle.CompositeBeforeSetupIsEmpty` | IcetContext.cpp:59-62 | after any calls on a new context with no successful setup, a composite returns `(null, 0)` and changes nothing |
| `IcetJni.CreateNativeContext` | IcetJNI.cpp:9-16 | the handle is non-zero and refers to a fresh context |
| `IcetJni.DestroyNativeContext` | IcetJNI.cpp:18-26 | a zero handle is left alone; a live one is deleted and the caller's handle then refers to freed memory, which no entry point may receive again |
| `IcetJni.SetupICET` | IcetJNI.cpp:31-40 | a zero handle is rejected with nothing invoked; otherwise the context's setup is applied |
| `IcetJni.SetProcessorCentroid` | IcetJNI.cpp:46-67 | rejected exactly for a zero handle or an array whose length is not 3, and then the context is unchanged; otherwise exactly the three given values become the id's anchor and nothing else changes |
| `IcetJni.CompositeFrameGuardAsWritten` | IcetJNI.cpp:78-96 | the composite is reached exactly when the handle is non-zero and the sub-image buffer and the camera array are non-null; the three checks run in that order |
| `IcetJni.AsWrittenGuardForwardsShortCamPos` | IcetJNI.cpp:91-98 | the guard as written forwards a 2-element camera array to a ready context that needs three coordinates |
| `IcetJni.CompositeFrameGuard` | IcetJNI.cpp:78-96 | rejects exactly what the written checks reject plus camera arrays whose length is not 3; it agrees with the written checks on every 3-element or null camera array |
| `IcetJni.CompositeFrameGuardForwardsThreeCoordinates` | IcetJNI.cpp:91-98 | whatever the corrected guard forwards meets the context's need for three camera coordinates |
| `IcetJni.CompositeFrame` | IcetJNI.cpp:72-106 | the context's composite is not reached for a zero handle, a null sub-image or a null camera array, and then the context is unchanged; a camera array of any length is forwarded, and then the context afterwards is exactly the one the context's composite produces (it keeps the registry and session and never shrinks the buffer) |
| `IcetJni.CompositeFrameChecked` | IcetJNI.cpp:72-106 | the corrected entry point: it also rejects camera arrays whose length is not 3, leaving the caller no length obligation, and behaves exactly like the entry point as written on every 3-element array |

## Left out

- The IceT and MPI calls are not modelled: `icetCreateMPICommunicator`, `icetCreateContext`, `icetDiagnostics`, `icetAddTile`, the format, strategy and mode setters, `icetCompositeOrder`, `icetCompositeImage`, `icetImageGetColorub`, `MPI_Comm_rank` and `MPI_Comm_size`. They are foreign, blocking, collective calls. Their observable results are inputs (`Communicator`, `EngineRun`). The tile recorded at setup and the order handed to the engine are part of the model's state and result.
- `getMPICommunicator` always returns `MPI_COMM_WORLD`. The model takes the communicator as a parameter so that the null-communicator branch of `setupICET` is covered.
- The sub-image pointer is only handed to the engine, so its contents are not modelled. The JNI layer models only whether it is null.
- Floating point is not modelled. Coordinates are reals and distances are compared squared instead of through `std::sqrt` on floats. The float evaluation of `dx*dx + dy*dy + dz*dz` rounds each distance separately. It can turn distinct distances into ties, and it can also swap two nearly equal distances, so the order the code hands to the engine need not be sorted by the exact real distances that `ComputeOrder` orders by.
- `VisibilityOrder.ComputeOrder`: the order among ids at equal distance is not promised, because `std::sort` is unstable. The model's insertion sort fixes one arrangement. `ComputeOrderAgreesWithAnySort` relates it to every other sorted arrangement.
- `IcetContext.CanComposite`: an anchor for every id of the group, at least three camera coordinates, and engine output covering the `dataSize` bytes that `memcpy` reads are preconditions. The code reads the registry, `camPos` and the engine's colour data without checks, so any violation is undefined behaviour, not an error path.
- `IcetContext.CompositeFrame`: when the wrapped `dataSize` exceeds what `resize` can allocate, `std::vector::resize` throws (`length_error` above `max_size()`, or `bad_alloc`). The exception is not modelled; the precondition that the engine output covers `dataSize` bytes already excludes such sizes for any real engine image.
- `IcetContext.CompositeFrame`: the engine's image size is an input. The model does not tie it to the tile recorded at setup, so a composite window larger than the setup tile (which makes the `memcpy` over-read) shows up only as the unmet precondition on the colour data's length.
- `IcetContext.CompositeFrame`: `BufferView(bytes)` stands for the pair `(m_colorBuffer.data(), dataSize)`. When `dataSize` is 0 and the buffer was never grown, `data()` of the empty vector may be a null pointer, so that 0-byte view can be indistinguishable from `(nullptr, 0)` to the caller. The model keeps the two apart.
- `IcetContext.CompositeFrame`: the returned view is modelled as a snapshot of the bytes it covers. In the code it is a pointer into `m_colorBuffer`, which the next root-side composite overwrites and may reallocate, so the caller's pointer can change content or dangle. The model does not track that aliasing.
- The destructor is empty and is not modelled.
- `IcetJni.DestroyNativeContext`: the deleted handle is modelled as `Freed`. Every entry point requires a usable handle, because the code dereferences the freed address (use after free, or a double delete) without any check. The model does not say what such a call does.
- The JNI environment plumbing is not modelled: `GetArrayLength`, `GetFloatArrayRegion`, `GetDirectBufferAddress`, `Get/ReleaseFloatArrayElements` and the handle casts. Only the guard decisions are.
- Logging to `std::cerr` is not modelled.
- `IcetJni.CompositeFrame` discards the returned view, as the entry point does (it returns `void`).
- Calling `setupICET` twice leaks the earlier IceT context. The model only shows the new session replacing the old one.

## Findings

| source | as written | input that shows it | evidently intended | confidence | as-written member | corrected member |
|---|---|---|---|---|---|---|
| IcetJNI.cpp:91-98 | `compositeFrame` forwards any non-null camera array, and the context then reads `camPos[0..2]` | a 2-element `camPosArray` on a set-up context with one anchored process: `IcetJni.CompositeFrame` forwards it (its precondition then falls on the caller), and the distance loop reads a third float past the array | reject camera arrays whose length is not 3, as `setProcessorCentroid` does for anchors (IcetJNI.cpp:57-61) | medium; not executed | `IcetJni.CompositeFrameGuardAsWritten`, `IcetJni.AsWrittenGuardForwardsShortCamPos` | `IcetJni.CompositeFrameGuard`, `IcetJni.CompositeFrameGuardForwardsThreeCoordinates`, `IcetJni.CompositeFrameChecked` |
