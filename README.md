# LearnDirectX HomeWork: verified model of the frame timer, buffer layout and window state

This project models and proves the sequential logic of a small Direct3D 12
demo (one window, one draw of a coloured cube per frame). It leaves out the
graphics and windowing API calls and keeps four pieces:

- **GameTimer** (`timer.dfy`, module `Timer`). A pausable frame timer with
  the fields `mBaseTime`, `mPausedTime`, `mPrevTime`, `mCurrTime`,
  `mStopTime`, `mStopped` and `mDeltaTime`.
  - Each performance-counter reading is a parameter `now`.
  - Times are kept in counter ticks ("counts"). The source turns counts into
    seconds by multiplying by the positive factor `mSecondsPerCount`, which
    changes neither the sign of a delta nor the clamp applied to it.
  - The class `GameTimer` updates its fields in place. Each method is proved
    to produce `After*(old State, now)`. The proofs about those functions
    cover:
    - Tick while stopped zeroes the delta and changes nothing else.
    - The delta of a running Tick is never negative.
    - Stop is idempotent, and Start on a running timer is a no-op.
    - TotalTime does not jump at a resume.
    - TotalTime stays frozen across any number of Ticks while stopped.
- **CalcConstantBufferByteSize** (`global_util.dfy`, module `GlobalUtil`).
  This rounds a size up to 256 bytes for constant buffers.
  - It computes `(n + 255) & ~255` on a 32-bit UINT. The model takes the
    sum mod 2^32, then clears the low eight bits.
  - The result is always 256-aligned.
  - Up to 2^32 - 256 it is the least multiple of 256 that is not below the
    input. Above that the sum wraps and the result is 0.
  - Rounding is idempotent.
- **UploadBuffer<T>** (`upload_buffer.dfy`, module `Upload`). A mapped byte
  buffer (`array<bv8>`) of `elementCount` slots.
  - The stride is `sizeof(T)`, or `sizeof(T)` rounded to 256 for a constant
    buffer.
  - The requested size is stride × count as a 32-bit product.
  - `CopyData(i, data)` overwrites exactly the bytes
    `[i*stride, i*stride + sizeof(T))` and nothing else.
  - Copies to distinct slots commute, because slots do not overlap.
  - Repeating a copy changes nothing.
- **Application state** (`homework.dfy`, module `HomeWork`).
  - **Message handler.** `MsgProc` is a transition function over the window
    flags `mAppPaused`, `mMinimized`, `mMaximized`, `mResizing` and
    `m4xMsaaStatus`, plus the client size. It returns the effects it
    requests: resize, timer start, timer stop, quit.
  - **The `App` class.** It holds these globals, the back-buffer index
    `mCurrBackBuffer`, the fence counter `mCurrentFence` and the timer
    `mTimer`.
  - **Frame logic.** `Dispatch` applies a message's effects. `Draw` advances
    the back-buffer ring. `OnResize` resets the ring to 0. `FlushCommandQueue`
    advances the fence; the GPU's completed value is an input, and the method
    reports whether the CPU must wait. `RunFrame` is one idle turn of the
    message loop.
  - **Cube data.** The 36 indices of `BuildBoxGeometry` and the buffer byte
    sizes.

Two behaviours of the code that are easy to misread:

- **Delta after a resume.** The first Tick after a resume measures from the
  resume, not from the last Tick before the pause. This is because `Start`
  sets `mPrevTime` to the start reading (GameTimer.cpp:47); see
  `Timer.FirstTickAfterResume`.
- **Fence width.** `mCurrentFence` is a 32-bit `UINT`, so the fence is not
  monotonic forever. The model's `NextFence` wraps to 0 after 2^32 - 1, and
  the next flush then never waits (`HomeWork.FenceWrapSkipsWait`).

## Model

| member | source | states |
|---|---|---|
| GlobalUtil.CalcConstantBufferByteSize | GlobalUtil.h:101-104 | the result is a multiple of 256; for n ≤ 2^32 - 256 it lies in [n, n + 256); above that the 32-bit sum wraps and the result is 0 |
| GlobalUtil.RoundsToLeastMultiple | GlobalUtil.h:103 | for n ≤ 2^32 - 256 no multiple of 256 at or above n is smaller than the result |
| GlobalUtil.AlignedUnchanged | GlobalUtil.h:103 | a 256-aligned size (0 included) is returned unchanged |
| GlobalUtil.RoundingIdempotent | GlobalUtil.h:103 | rounding twice equals rounding once |
| GlobalUtil.RoundingExamples | GlobalUtil.h:103 | 0 → 0, 4 → 256, 256 → 256, 257 → 512, 2^32 - 1 → 0 |
| Timer.Initial | GameTimer.cpp:3-10 | the constructed timer is running with stop time 0 (so it satisfies "a running timer has stop time 0") and has a negative delta (-1 s) |
| Timer.TotalCounts | GameTimer.cpp:12-22 | TotalTime in counts; the lemmas prove it continuous across Start (`TotalContinuousAcrossStart`) and across a Stop at the last reading, frozen across any Ticks while stopped (`TotalFrozenWhileStopped`), and advanced by exactly the delta of a forward Tick on a running timer whose previous and current readings agree (`TickAdvancesTotalByDelta`); right after Reset that need not hold (`ResetTickExample`) |
| Timer.AfterReset | GameTimer.cpp:29-38 | Reset as a function of the old fields; `ResetEffect` gives every field, `OperationsKeepValid` the invariant |
| Timer.AfterStart | GameTimer.cpp:40-53 | Start as a function of the old fields; `StartWhileRunning`, `StartAfterStop`, `StartLeavesRunning` and `TotalContinuousAcrossStart` state its effect |
| Timer.AfterStop | GameTimer.cpp:55-65 | Stop as a function of the old fields; `StopIdempotent` and `TotalContinuousAcrossStop` state its effect |
| Timer.AfterTick | GameTimer.cpp:67-88 | Tick as a function of the old fields; `TickWhileStopped`, `TickWhileRunning` (delta never negative) and `TickAdvancesTotalByDelta` state its effect |
| Timer.OperationsKeepValid | GameTimer.cpp:29-88 | Reset, Start, Stop and Tick all keep "a running timer has stop time 0"; Start relies on it (`Timer.StartLeavesRunning`) |
| Timer.ResetEffect | GameTimer.cpp:29-38 | Reset sets base and previous reading to now, clears stopped and the stop time, and keeps paused time, current time and delta |
| Timer.TickWhileStopped | GameTimer.cpp:69-73 | Tick while stopped sets the delta to 0 and leaves every other field unchanged |
| Timer.TickWhileRunning | GameTimer.cpp:75-87 | Tick while running stores the reading as current and previous time; the delta is the elapsed count, or 0 if the clock went backwards, never negative; nothing else changes |
| Timer.StopIdempotent | GameTimer.cpp:57-64 | a second Stop changes no field, whatever its reading |
| Timer.StartWhileRunning | GameTimer.cpp:44 | Start on a running timer changes nothing |
| Timer.StartAfterStop | GameTimer.cpp:46-51 | Start after Stop adds start - stop to the paused time, sets both readings to the start time, clears the stop time and the stopped flag |
| Timer.StartLeavesRunning | GameTimer.cpp:40-53 | from any state satisfying "a running timer has stop time 0", Start leaves the timer running with stop time 0 |
| Timer.TotalContinuousAcrossStart | GameTimer.cpp:14-21 | TotalTime right after Start equals its stopped value stop - paused - base |
| Timer.TotalContinuousAcrossStop | GameTimer.cpp:14-21 | stopping at the last Tick's reading leaves TotalTime unchanged |
| Timer.TotalFrozenWhileStopped | GameTimer.cpp:67-73 | while stopped, any number of Ticks leave TotalTime unchanged and change only the delta (to 0) |
| Timer.ReadingsAgree | GameTimer.cpp:40-88 | after a running Tick, and after a Start that resumed a stopped timer, the previous and current readings are equal |
| Timer.TickAdvancesTotalByDelta | GameTimer.cpp:75-87 | a forward Tick on a running timer whose previous and current readings agree (after a running Tick, or after a Start that resumed a stopped timer; not the first Tick after Reset) advances TotalTime by exactly the reported delta |
| Timer.FirstTickAfterReset | GameTimer.cpp:29-88 | the first forward Tick after Reset at r reports delta now - r, and TotalTime becomes now - r minus the paused time, which Reset keeps |
| Timer.ResetTickExample | GameTimer.cpp:29-88 | Reset at 100, a Start that changes nothing at 150, a Tick at 200: the delta is 100 while TotalTime rises by 200, because Reset leaves mCurrTime stale |
| Timer.FirstTickAfterResume | GameTimer.cpp:46-49 | the first delta after Stop/Start is measured from the start reading |
| Timer.GameTimer.constructor | GameTimer.cpp:3-10 | all counters 0, running, delta -1 s in counts |
| Timer.GameTimer.Reset | GameTimer.cpp:29-38 | the new fields are AfterReset of the old ones; the invariant is kept |
| Timer.GameTimer.Start | GameTimer.cpp:40-53 | the new fields are AfterStart of the old ones; the timer is running with stop time 0 afterwards; TotalTime is unchanged when resuming |
| Timer.GameTimer.Stop | GameTimer.cpp:55-65 | the new fields are AfterStop of the old ones |
| Timer.GameTimer.Tick | GameTimer.cpp:67-88 | the new fields are AfterTick of the old ones; DeltaTime is non-negative afterwards |
| Timer.GameTimer.TotalTime | GameTimer.cpp:12-22 | TotalTime of the object is `TotalCounts` of its fields, so the lemmas about `TotalCounts` apply to it |
| Timer.GameTimer.DeltaTime | GameTimer.cpp:24-27 | the delta of the latest Tick; `GameTimer.Tick` ensures it is never negative after a Tick |
| Upload.ElementStride | UploadBuffer.h:12-15 | without the constant-buffer flag the stride is sizeof(T); with it (and no wrap) a multiple of 256 in [sizeof(T), sizeof(T) + 256) |
| Upload.BufferByteSize | UploadBuffer.h:18 | the requested width is stride × count whenever that product fits 32 bits |
| Upload.Written | UploadBuffer.h:44 | after the copy the window holds the data bytes and every byte outside it is unchanged; the length is kept |
| Upload.WrittenCommutes | UploadBuffer.h:44 | copies to disjoint windows commute |
| Upload.WrittenIdempotent | UploadBuffer.h:44 | repeating a copy with the same offset and data changes nothing |
| Upload.SlotOffset | UploadBuffer.h:44 | the byte offset elementIndex × stride of a slot; `SlotsDisjoint` and `SlotInBounds` prove the slots disjoint and inside the buffer |
| Upload.SlotsDisjoint | UploadBuffer.h:12-15 | with stride ≥ sizeof(T), the slots of distinct indices do not overlap |
| Upload.SlotInBounds | UploadBuffer.h:42-45 | when stride × count did not wrap, every index below the element count addresses a slot inside the buffer |
| Upload.SlotCopiesCommute | UploadBuffer.h:42-45 | CopyData to two distinct indices gives the same bytes in either order |
| Upload.UploadBuffer.constructor | UploadBuffer.h:9-24 | stride is ElementStride(sizeof(T), flag) and a fresh buffer of BufferByteSize(stride, count) bytes is mapped |
| Upload.UploadBuffer.CopyData | UploadBuffer.h:42-45 | the mapped bytes become Written(old bytes, i × stride, data); requires the slot to lie inside the buffer, as memcpy checks nothing |
| HomeWork.Transition | HomeWork.cpp:739-855 | MsgProc's new globals and requested effects for one message; the message lemmas below, `TransitionKeepsValid` and `TimerEffectsAgreeWithPause` state its behaviour |
| HomeWork.SizeStep | HomeWork.cpp:761-796 | the WM_SIZE branches taken once a device exists; `SizeMinimizedEffect`, `SizeMaximizedEffect` and `SizeRestoredEffect` state them |
| HomeWork.ActivateEffect | HomeWork.cpp:743-754 | WA_INACTIVE pauses and requests a timer stop; any other activation unpauses and requests a timer start; no other flag changes |
| HomeWork.SizeRecordsDimensions | HomeWork.cpp:756-759 | WM_SIZE always stores LOWORD/HIWORD of lparam as the client size; without a device it changes nothing else and requests nothing |
| HomeWork.SizeMinimizedEffect | HomeWork.cpp:761-766 | SIZE_MINIMIZED sets paused and minimized, clears maximized, requests no resize |
| HomeWork.SizeMaximizedEffect | HomeWork.cpp:767-773 | SIZE_MAXIMIZED clears paused and minimized, sets maximized, requests a resize |
| HomeWork.SizeRestoredEffect | HomeWork.cpp:774-796 | SIZE_RESTORED resizes exactly when not (resizing and neither minimized nor maximized); in that excluded case no flag changes |
| HomeWork.SizeMoveEffect | HomeWork.cpp:800-811 | ENTERSIZEMOVE sets paused and resizing and stops the timer; EXITSIZEMOVE clears both, starts the timer and resizes |
| HomeWork.KeyUpEffect | HomeWork.cpp:844-851 | F2 toggles 4x MSAA (twice restores the state); Escape requests quit and changes nothing |
| HomeWork.TimerEffectsAgreeWithPause | HomeWork.cpp:743-811 | no message both starts and stops the timer; a stop leaves the app paused, a start leaves it running |
| HomeWork.TransitionKeepsValid | HomeWork.cpp:739-855 | every message keeps "not minimized and maximized at once" and does not change whether a device exists |
| HomeWork.RunKeepsValid | HomeWork.cpp:739-855 | any sequence of messages keeps "not minimized and maximized at once" |
| HomeWork.ApplyTimerEffects | HomeWork.cpp:743-811 | the inline `mTimer.Stop()` / `mTimer.Start()` calls of MsgProc (lines 747, 752, 803, 809) as AfterStop or AfterStart of the timer at the message's reading; `TimerEffectsAgreeWithPause` shows that at most one is requested, and `Dispatch` and `FocusLossFreezesTotal` are stated through it |
| HomeWork.FocusLossFreezesTotal | HomeWork.cpp:743-754 | deactivation then reactivation stops and restarts the timer, and TotalTime after reactivation equals its frozen value |
| HomeWork.NextBackBuffer | HomeWork.cpp:271 | the next back-buffer index stays in [0, mSwapChainCount) and differs from the current one |
| HomeWork.BackBufferCycles | HomeWork.cpp:271 | after n frames from index i the index is (i + n) mod mSwapChainCount |
| HomeWork.NextFence | HomeWork.cpp:890 | the fence increases by exactly one, except that 2^32 - 1 wraps to 0 |
| HomeWork.MustWait | HomeWork.cpp:893 | the CPU waits exactly when the GPU's completed value is below the fence; `FlushCommandQueue` and `FenceWrapSkipsWait` state its use |
| HomeWork.FlushesAdvanceFence | HomeWork.cpp:890 | n flushes from f give f + n while no wrap occurs |
| HomeWork.FenceWrapSkipsWait | HomeWork.cpp:890-893 | after the 32-bit counter wraps, the flush signals 0 and never waits |
| HomeWork.BuildBoxGeometry | HomeWork.cpp:533-602 | 36 indices, each below the 8 vertices and within 16 bits; index buffer 72 bytes; vertex buffers 8 × 12 and 8 × 16 bytes |
| HomeWork.BoxTrianglesWellFormed | HomeWork.cpp:533-558 | each of the 12 triangles has three distinct corners and all 8 corners are used |
| HomeWork.App.constructor | HomeWork.cpp:49-71 | flags false, 1280 × 720 client area, no device, back buffer 0, fence 0, a freshly constructed timer |
| HomeWork.App.CreateDevice | HomeWork.cpp:355 | the device now exists; nothing else changes |
| HomeWork.App.MsgProc | HomeWork.cpp:739-855 | the flags become Transition(old flags, msg) and its effects are returned; back buffer and fence are unchanged |
| HomeWork.App.FlushCommandQueue | HomeWork.cpp:888-904 | the fence becomes NextFence(old); the CPU waits exactly when completed < fence, so without a wait completed ≥ fence |
| HomeWork.App.Draw | HomeWork.cpp:270-274 | the back buffer advances by one in the ring and the fence by one flush; flags unchanged |
| HomeWork.App.OnResize | HomeWork.cpp:638-716 | two flushes (fence + 2) and the back-buffer index reset to 0; flags unchanged |
| HomeWork.App.Dispatch | HomeWork.cpp:743-811 | flags and effects as Transition; the timer is stopped or started at now as requested; a resize resets the back buffer and flushes twice |
| HomeWork.App.RunFrame | HomeWork.cpp:619-631 | the timer Ticks every turn; the frame is drawn (ring and fence advance) only when not paused |

## Left out

- Device, queue, allocator, swap chain, descriptor heaps, root signature, pipeline state and depth buffer creation (HomeWork.cpp:337-396, 638-717, 906-1002): foreign graphics-API calls with no local logic. Of InitDirect3D only the fact that the device now exists is kept (`App.CreateDevice`).
- CreateDefaultBuffer and its upload-heap copy (GlobalUtil.h:50-98) and CompileShader (GlobalUtil.h:107-137): thin wrappers over library calls that are not shown.
- DxException::ToString, AnsiToWString and the ThrowIfFailed error path: they depend on COM error strings and code-page conversion; every failing graphics call aborts the program, and no such call is modelled.
- The GPU wait in FlushCommandQueue (SetEventOnCompletion, WaitForSingleObject) and Present: operating-system and GPU synchronisation; only the counter and the wait decision are modelled, with the completed value as an input.
- Update, the mouse handlers, CalculateFrameStats, the viewport, the scissor rectangle and the projection: floating-point and DirectXMath code.
- The `Sleep(100)` of Run's paused branch (HomeWork.cpp:628-631): a timing effect that changes no modelled state, so `App.RunFrame` does nothing in that branch besides the Tick.
- Run's message pump, InitWindow, WinMain, and the WM_GETMINMAXINFO and WM_MENUCHAR replies: I/O and windowing (these messages are `OtherMessage`, which changes nothing modelled).
- Resizing the swap-chain buffers and depth buffer themselves: they are graphics objects, so "resizing twice with the same size equals resizing once" is not stated.
- QueryPerformanceCounter and QueryPerformanceFrequency readings, and the conversions to double and float seconds in GameTimer: readings are parameters and times are in counts.
- Timer.GameTimer: the __int64 fields are unbounded integers, so 64-bit overflow of the counter arithmetic is not modelled (the counter would need centuries to reach it).
- Upload.UploadBuffer.CopyData: the offset `elementIndex * mElementByteSize` is a 32-bit product in the source; the precondition requires the unwrapped offset to be inside the buffer, so a wrapped offset that happens to land in the buffer is not covered.
- Upload.UploadBuffer: the destructor's Unmap and the Resource accessor are left out; they only release or return the graphics resource.
- The vertex positions and colours of BuildBoxGeometry are floating-point values; only their counts and byte sizes are modelled.
