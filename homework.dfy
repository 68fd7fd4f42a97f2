// Model of the application state of HomeWork.cpp: the window-message flag
// machine of MsgProc, the back-buffer ring index, the fence counter of
// FlushCommandQueue, the per-frame step of the message loop, and the static
// cube geometry of BuildBoxGeometry. The graphics calls themselves are not
// part of this model; the GPU's completed fence value is an input.

module HomeWork {
  import opened GlobalUtil
  import Timer

  // ------------------------------------------------------------ constants

  /** mSwapChainCount. */
  const SwapChainCount: int := 2

  /** Win32 values the message handler compares against. */
  const WaInactive: nat := 0
  const SizeRestored: nat := 0
  const SizeMinimized: nat := 1
  const SizeMaximized: nat := 2
  const VkEscape: nat := 0x1B
  const VkF2: nat := 0x71

  /** Initial client area, mClientWidth x mClientHeight. */
  const InitialWidth: nat := 1280
  const InitialHeight: nat := 720

  /** LOWORD and HIWORD of a message parameter. */
  function LoWord(x: nat): nat { x % 0x1_0000 }
  function HiWord(x: nat): nat { (x / 0x1_0000) % 0x1_0000 }

  // ------------------------------------------------------------ messages

  /** The messages whose handling touches the modelled state; all others are OtherMessage. */
  datatype Message =
    | Activate(wparam: nat)        // WM_ACTIVATE
    | Size(wparam: nat, lparam: nat) // WM_SIZE
    | EnterSizeMove                // WM_ENTERSIZEMOVE
    | ExitSizeMove                 // WM_EXITSIZEMOVE
    | Destroy                      // WM_DESTROY
    | KeyUp(wparam: nat)           // WM_KEYUP
    | OtherMessage                 // mouse, WM_GETMINMAXINFO, WM_MENUCHAR, DefWindowProc

  /** What a message asks of the rest of the program besides the flags it sets. */
  datatype Effects = Effects(resize: bool, timerStart: bool, timerStop: bool, quit: bool)

  const NoEffects: Effects := Effects(false, false, false, false)

  /** The globals MsgProc reads and writes; deviceCreated stands for `m_Device != nullptr`. */
  datatype WindowState = WindowState(
    appPaused: bool,
    minimized: bool,
    maximized: bool,
    resizing: bool,
    msaa4x: bool,
    clientWidth: nat,
    clientHeight: nat,
    deviceCreated: bool
  )

  /** The globals as initialised at program start. */
  const InitialWindow: WindowState :=
    WindowState(false, false, false, false, false, InitialWidth, InitialHeight, false)

  /** A window is never minimized and maximized at once. */
  predicate WindowValid(s: WindowState) {
    !(s.minimized && s.maximized)
  }

  datatype Step = Step(state: WindowState, effects: Effects)

  /** WM_SIZE once the size has been recorded and a device exists. */
  function SizeStep(s: WindowState, wparam: nat): Step {
    if wparam == SizeMinimized then
      Step(s.(appPaused := true, minimized := true, maximized := false), NoEffects)
    else if wparam == SizeMaximized then
      Step(s.(appPaused := false, minimized := false, maximized := true), NoEffects.(resize := true))
    else if wparam == SizeRestored then
      if s.minimized then
        Step(s.(appPaused := false, minimized := false), NoEffects.(resize := true))
      else if s.maximized then
        Step(s.(appPaused := false, maximized := false), NoEffects.(resize := true))
      else if s.resizing then
        Step(s, NoEffects)
      else
        Step(s, NoEffects.(resize := true))
    else
      Step(s, NoEffects)
  }

  /** MsgProc: the new globals and the requested effects for one message. */
  function Transition(s: WindowState, msg: Message): Step {
    match msg
    case Activate(w) =>
      if LoWord(w) == WaInactive then Step(s.(appPaused := true), NoEffects.(timerStop := true))
      else Step(s.(appPaused := false), NoEffects.(timerStart := true))
    case Size(w, l) =>
      var sized := s.(clientWidth := LoWord(l), clientHeight := HiWord(l));
      if s.deviceCreated then SizeStep(sized, w) else Step(sized, NoEffects)
    case EnterSizeMove =>
      Step(s.(appPaused := true, resizing := true), NoEffects.(timerStop := true))
    case ExitSizeMove =>
      Step(s.(appPaused := false, resizing := false), NoEffects.(timerStart := true, resize := true))
    case Destroy =>
      Step(s, NoEffects.(quit := true))
    case KeyUp(w) =>
      if w == VkEscape then Step(s, NoEffects.(quit := true))
      else if w % Pow32 == VkF2 then Step(s.(msaa4x := !s.msaa4x), NoEffects)
      else Step(s, NoEffects)
    case OtherMessage =>
      Step(s, NoEffects)
  }

  /** The globals after a sequence of messages, handled in order. */
  function RunMessages(s: WindowState, msgs: seq<Message>): WindowState
    decreases |msgs|
  {
    if msgs == [] then s else RunMessages(Transition(s, msgs[0]).state, msgs[1..])
  }

  // ------------------------------------------------------ message properties

  /** WA_INACTIVE pauses and stops the timer; any other activation unpauses and starts it. */
  lemma ActivateEffect(s: WindowState, w: nat)
    ensures var st := Transition(s, Activate(w));
      if LoWord(w) == WaInactive then
        st.state == s.(appPaused := true) && st.effects == NoEffects.(timerStop := true)
      else
        st.state == s.(appPaused := false) && st.effects == NoEffects.(timerStart := true)
  {
  }

  /** WM_SIZE always records the new client size; without a device it does nothing else. */
  lemma SizeRecordsDimensions(s: WindowState, w: nat, l: nat)
    ensures var st := Transition(s, Size(w, l));
      st.state.clientWidth == LoWord(l) && st.state.clientHeight == HiWord(l) &&
      (!s.deviceCreated ==>
        st.state == s.(clientWidth := LoWord(l), clientHeight := HiWord(l)) && st.effects == NoEffects)
  {
  }

  /** SIZE_MINIMIZED pauses and minimizes, clears maximized, and asks for no resize. */
  lemma SizeMinimizedEffect(s: WindowState, l: nat)
    requires s.deviceCreated
    ensures var st := Transition(s, Size(SizeMinimized, l));
      st.state.appPaused && st.state.minimized && !st.state.maximized && !st.effects.resize &&
      st.state.resizing == s.resizing && st.state.msaa4x == s.msaa4x
  {
  }

  /** SIZE_MAXIMIZED unpauses, clears minimized, sets maximized and resizes. */
  lemma SizeMaximizedEffect(s: WindowState, l: nat)
    requires s.deviceCreated
    ensures var st := Transition(s, Size(SizeMaximized, l));
      !st.state.appPaused && !st.state.minimized && st.state.maximized && st.effects.resize &&
      st.state.resizing == s.resizing && st.state.msaa4x == s.msaa4x
  {
  }

  /**
   * SIZE_RESTORED during a drag (neither minimized nor maximized) changes no
   * flag and does not resize; in every other restored case the window resizes.
   */
  lemma SizeRestoredEffect(s: WindowState, l: nat)
    requires s.deviceCreated
    ensures var st := Transition(s, Size(SizeRestored, l));
      st.effects.resize <==> !(s.resizing && !s.minimized && !s.maximized)
    ensures var st := Transition(s, Size(SizeRestored, l));
      s.resizing && !s.minimized && !s.maximized ==>
        st.state == s.(clientWidth := LoWord(l), clientHeight := HiWord(l))
  {
  }

  /** ENTERSIZEMOVE pauses, marks the drag and stops the timer; EXITSIZEMOVE undoes all three and resizes. */
  lemma SizeMoveEffect(s: WindowState)
    ensures Transition(s, EnterSizeMove) ==
      Step(s.(appPaused := true, resizing := true), NoEffects.(timerStop := true))
    ensures Transition(s, ExitSizeMove) ==
      Step(s.(appPaused := false, resizing := false), NoEffects.(timerStart := true, resize := true))
  {
  }

  /** F2 toggles 4x MSAA, so two F2 releases restore it; Escape quits. */
  lemma KeyUpEffect(s: WindowState)
    ensures Transition(s, KeyUp(VkF2)).state.msaa4x == !s.msaa4x
    ensures Transition(Transition(s, KeyUp(VkF2)).state, KeyUp(VkF2)).state == s
    ensures Transition(s, KeyUp(VkEscape)) == Step(s, NoEffects.(quit := true))
  {
  }

  /**
   * The timer and the pause flag agree: a message that stops the timer
   * leaves the application paused, one that starts it leaves it running, and
   * no message does both.
   */
  lemma TimerEffectsAgreeWithPause(s: WindowState, msg: Message)
    ensures var st := Transition(s, msg);
      !(st.effects.timerStart && st.effects.timerStop) &&
      (st.effects.timerStop ==> st.state.appPaused) &&
      (st.effects.timerStart ==> !st.state.appPaused)
  {
  }

  /** Every message keeps the window from being minimized and maximized at once. */
  lemma TransitionKeepsValid(s: WindowState, msg: Message)
    requires WindowValid(s)
    ensures WindowValid(Transition(s, msg).state)
    ensures Transition(s, msg).state.deviceCreated == s.deviceCreated
  {
  }

  /** ... and so does every sequence of messages, starting from any valid state. */
  lemma {:induction false} RunKeepsValid(s: WindowState, msgs: seq<Message>)
    requires WindowValid(s)
    ensures WindowValid(RunMessages(s, msgs))
    decreases |msgs|
  {
    if msgs != [] {
      TransitionKeepsValid(s, msgs[0]);
      RunKeepsValid(Transition(s, msgs[0]).state, msgs[1..]);
    }
  }

  /** The timer calls MsgProc makes for the effects it requested. */
  function ApplyTimerEffects(t: Timer.TimerState, fx: Effects, now: int): Timer.TimerState {
    if fx.timerStop then Timer.AfterStop(t, now)
    else if fx.timerStart then Timer.AfterStart(t, now)
    else t
  }

  /**
   * Losing and regaining focus pauses the clock: TotalTime after the
   * reactivation equals TotalTime as frozen by the deactivation.
   */
  lemma {:induction false} FocusLossFreezesTotal(s: WindowState, t: Timer.TimerState, lostAt: int, regainedAt: int)
    requires !t.stopped
    ensures var s1 := Transition(s, Activate(WaInactive));
      var t1 := ApplyTimerEffects(t, s1.effects, lostAt);
      var s2 := Transition(s1.state, Activate(1));
      var t2 := ApplyTimerEffects(t1, s2.effects, regainedAt);
      t1.stopped && !t2.stopped &&
      Timer.TotalCounts(t2) == Timer.TotalCounts(t1) == t1.stopTime - t.pausedTime - t.baseTime
  {
    var s1 := Transition(s, Activate(WaInactive));
    var t1 := ApplyTimerEffects(t, s1.effects, lostAt);
    assert t1 == Timer.AfterStop(t, lostAt);
    var s2 := Transition(s1.state, Activate(1));
    assert s2.effects == NoEffects.(timerStart := true);
    Timer.TotalContinuousAcrossStart(t1, regainedAt);
  }

  // ------------------------------------------------ back buffer and fence

  /** The back buffer used by the next frame: the ring advances by one per Present. */
  function NextBackBuffer(i: int): (r: int)
    requires 0 <= i < SwapChainCount
    ensures 0 <= r < SwapChainCount && r != i
  {
    (i + 1) % SwapChainCount
  }

  /** The back-buffer index after n frames. */
  function BackBufferAfterFrames(i: int, n: nat): (r: int)
    requires 0 <= i < SwapChainCount
    decreases n
  {
    if n == 0 then i else BackBufferAfterFrames(NextBackBuffer(i), n - 1)
  }

  /** After n frames from index i the ring is at (i + n) mod mSwapChainCount. */
  lemma {:induction false} BackBufferCycles(i: int, n: nat)
    requires 0 <= i < SwapChainCount
    ensures BackBufferAfterFrames(i, n) == (i + n) % SwapChainCount
    decreases n
  {
    if n > 0 {
      BackBufferCycles(NextBackBuffer(i), n - 1);
    }
  }

  /** mCurrentFence++ on a UINT: one more, wrapping to 0 after 2^32 - 1. */
  function NextFence(f: Uint32): (r: Uint32)
    ensures f < Pow32 - 1 ==> r == f + 1
    ensures f == Pow32 - 1 ==> r == 0
  {
    (f + 1) % Pow32
  }

  /** FlushCommandQueue waits only when the GPU's completed value is below the new fence value. */
  predicate MustWait(fence: Uint32, completed: nat) {
    completed < fence
  }

  /** The fence value after n flushes. */
  function FenceAfterFlushes(f: Uint32, n: nat): Uint32
    decreases n
  {
    if n == 0 then f else FenceAfterFlushes(NextFence(f), n - 1)
  }

  /** Until it wraps, every flush advances the fence by exactly one. */
  lemma {:induction false} FlushesAdvanceFence(f: Uint32, n: nat)
    requires f + n < Pow32
    ensures FenceAfterFlushes(f, n) == f + n
    decreases n
  {
    if n > 0 {
      FlushesAdvanceFence(NextFence(f), n - 1);
    }
  }

  /**
   * The 32-bit counter wraps after 2^32 - 1 flushes; the next flush then
   * signals 0, and since no completed value is below 0, it does not wait.
   */
  lemma FenceWrapSkipsWait(completed: nat)
    ensures NextFence(Pow32 - 1) == 0 && !MustWait(NextFence(Pow32 - 1), completed)
  {
  }

  // --------------------------------------------------------- cube geometry

  /** sizeof(VPosData) (an XMFLOAT3), sizeof(VColorData) (an XMFLOAT4), sizeof(std::uint16_t). */
  const PosVertexSize: nat := 12
  const ColorVertexSize: nat := 16
  const IndexSize: nat := 2

  /** The eight corners of the cube. */
  const BoxVertexCount: nat := 8

  /** The 36 indices of BuildBoxGeometry: two triangles for each of the six faces. */
  const BoxIndices: seq<int> := [
    0, 1, 2,  0, 2, 3,   // front
    4, 6, 5,  4, 7, 6,   // back
    4, 5, 1,  4, 1, 0,   // left
    3, 2, 6,  3, 6, 7,   // right
    1, 5, 6,  1, 6, 2,   // top
    4, 0, 3,  4, 3, 7    // bottom
  ]

  /** The sizes and counts BuildBoxGeometry records for both meshes. */
  datatype BoxGeometry = BoxGeometry(
    indices: seq<int>,
    vertexCount: nat,
    posBufferByteSize: nat,     // vbPosByteSize
    colorBufferByteSize: nat,   // vbColorByteSize
    indexBufferByteSize: nat,   // ibByteSize
    posStride: nat,             // VertexByteStride of the position mesh
    colorStride: nat,           // VertexByteStride of the colour mesh
    indexCount: nat             // SubmeshGeometry::IndexCount
  )

  /**
   * BuildBoxGeometry's bookkeeping: every index names one of the eight
   * vertices and fits the 16-bit index format, the index buffer holds 36
   * indices in 72 bytes, and each vertex buffer is its count times its stride.
   */
  function BuildBoxGeometry(): (g: BoxGeometry)
    ensures |g.indices| == g.indexCount == 36
    ensures forall k :: 0 <= k < |g.indices| ==> 0 <= g.indices[k] < g.vertexCount < 0x1_0000
    ensures g.indexBufferByteSize == g.indexCount * IndexSize == 72
    ensures g.posBufferByteSize == g.vertexCount * g.posStride == 96
    ensures g.colorBufferByteSize == g.vertexCount * g.colorStride == 128
  {
    BoxGeometry(BoxIndices, BoxVertexCount,
      BoxVertexCount * PosVertexSize, BoxVertexCount * ColorVertexSize,
      |BoxIndices| * IndexSize, PosVertexSize, ColorVertexSize, |BoxIndices|)
  }

  /** Every triangle of the cube has three distinct corners, and every corner is used. */
  lemma BoxTrianglesWellFormed()
    ensures |BoxIndices| % 3 == 0
    ensures forall t :: 0 <= t < |BoxIndices| / 3 ==>
      BoxIndices[3 * t] != BoxIndices[3 * t + 1] &&
      BoxIndices[3 * t + 1] != BoxIndices[3 * t + 2] &&
      BoxIndices[3 * t] != BoxIndices[3 * t + 2]
    ensures forall v :: 0 <= v < BoxVertexCount ==> v in BoxIndices
  {
  }

  // ------------------------------------------------------ the application

  /** The application globals: window flags, back-buffer index, fence counter, and the timer. */
  class App {
    var appPaused: bool
    var minimized: bool
    var maximized: bool
    var resizing: bool
    var msaa4x: bool
    var clientWidth: nat
    var clientHeight: nat
    var deviceCreated: bool
    /** mCurrBackBuffer. */
    var currBackBuffer: int
    /** mCurrentFence (a UINT). */
    var currentFence: Uint32
    /** mTimer. */
    const timer: Timer.GameTimer

    /** The message-handling globals as one value. */
    function Flags(): WindowState
      reads this
    {
      WindowState(appPaused, minimized, maximized, resizing, msaa4x, clientWidth, clientHeight, deviceCreated)
    }

    ghost predicate Valid()
      reads this, timer
    {
      WindowValid(Flags()) && 0 <= currBackBuffer < SwapChainCount && timer.Valid()
    }

    /** The globals' initialisers; `countsPerSec` is the counter frequency mTimer's constructor reads. */
    constructor (countsPerSec: int)
      requires countsPerSec > 0
      ensures Valid() && fresh(timer)
      ensures Flags() == InitialWindow && currBackBuffer == 0 && currentFence == 0
      ensures timer.State() == Timer.Initial(countsPerSec)
    {
      appPaused, minimized, maximized, resizing, msaa4x := false, false, false, false, false;
      clientWidth, clientHeight := InitialWidth, InitialHeight;
      deviceCreated := false;
      currBackBuffer := 0;
      currentFence := 0;
      timer := new Timer.GameTimer(countsPerSec);
    }

    /** InitDirect3D's device creation: from here on m_Device is set. */
    method CreateDevice()
      requires Valid()
      modifies this
      ensures Valid() && Flags() == old(Flags()).(deviceCreated := true)
      ensures currBackBuffer == old(currBackBuffer) && currentFence == old(currentFence)
    {
      deviceCreated := true;
    }

    /** MsgProc's flag updates; the effects it requests are returned. */
    method MsgProc(msg: Message) returns (fx: Effects)
      requires Valid()
      modifies this
      ensures Valid()
      ensures Flags() == Transition(old(Flags()), msg).state && fx == Transition(old(Flags()), msg).effects
      ensures currBackBuffer == old(currBackBuffer) && currentFence == old(currentFence)
    {
      fx := NoEffects;
      match msg {
        case Activate(w) =>
          if LoWord(w) == WaInactive {
            appPaused := true;
            fx := fx.(timerStop := true);
          } else {
            appPaused := false;
            fx := fx.(timerStart := true);
          }
        case Size(w, l) =>
          clientWidth := LoWord(l);
          clientHeight := HiWord(l);
          if deviceCreated {
            if w == SizeMinimized {
              appPaused, minimized, maximized := true, true, false;
            } else if w == SizeMaximized {
              appPaused, minimized, maximized := false, false, true;
              fx := fx.(resize := true);
            } else if w == SizeRestored {
              if minimized {
                appPaused, minimized := false, false;
                fx := fx.(resize := true);
              } else if maximized {
                appPaused, maximized := false, false;
                fx := fx.(resize := true);
              } else if resizing {
                // dragging the border: resize once, at WM_EXITSIZEMOVE
              } else {
                fx := fx.(resize := true);
              }
            }
          }
        case EnterSizeMove =>
          appPaused, resizing := true, true;
          fx := fx.(timerStop := true);
        case ExitSizeMove =>
          appPaused, resizing := false, false;
          fx := fx.(timerStart := true, resize := true);
        case Destroy =>
          fx := fx.(quit := true);
        case KeyUp(w) =>
          if w == VkEscape {
            fx := fx.(quit := true);
          } else if w % Pow32 == VkF2 {
            msaa4x := !msaa4x;
          }
        case OtherMessage =>
      }
    }

    /** FlushCommandQueue: advance the fence; report whether the CPU has to wait for the GPU. */
    method FlushCommandQueue(completed: nat) returns (waited: bool)
      requires Valid()
      modifies this
      ensures Valid() && Flags() == old(Flags()) && currBackBuffer == old(currBackBuffer)
      ensures currentFence == NextFence(old(currentFence))
      ensures waited == MustWait(currentFence, completed)
      ensures !waited ==> completed >= currentFence
    {
      currentFence := (currentFence + 1) % Pow32;
      waited := completed < currentFence;
    }

    /** Draw's bookkeeping: present, advance the ring, flush. */
    method Draw(completed: nat) returns (waited: bool)
      requires Valid()
      modifies this
      ensures Valid() && Flags() == old(Flags())
      ensures currBackBuffer == NextBackBuffer(old(currBackBuffer))
      ensures currentFence == NextFence(old(currentFence))
      ensures waited == MustWait(currentFence, completed)
    {
      currBackBuffer := (currBackBuffer + 1) % SwapChainCount;
      waited := FlushCommandQueue(completed);
    }

    /**
     * OnResize's bookkeeping: flush, recreate the swap-chain buffers (which
     * restarts the ring at 0), flush again. `completedFirst` and
     * `completedSecond` are the GPU's completed values seen by the two flushes.
     */
    method OnResize(completedFirst: nat, completedSecond: nat)
      requires Valid()
      modifies this
      ensures Valid() && Flags() == old(Flags())
      ensures currBackBuffer == 0
      ensures currentFence == NextFence(NextFence(old(currentFence)))
    {
      var _ := FlushCommandQueue(completedFirst);
      currBackBuffer := 0;
      var _ := FlushCommandQueue(completedSecond);
    }

    /**
     * One message handled as MsgProc does: the flags change, the timer is
     * stopped or started at the reading `now`, and the window resizes.
     */
    method Dispatch(msg: Message, now: int, completedFirst: nat, completedSecond: nat) returns (fx: Effects)
      requires Valid()
      modifies this, timer
      ensures Valid()
      ensures Flags() == Transition(old(Flags()), msg).state && fx == Transition(old(Flags()), msg).effects
      ensures timer.State() == ApplyTimerEffects(old(timer.State()), fx, now)
      ensures currBackBuffer == if fx.resize then 0 else old(currBackBuffer)
      ensures currentFence == if fx.resize then NextFence(NextFence(old(currentFence))) else old(currentFence)
    {
      fx := MsgProc(msg);
      if fx.timerStop {
        timer.Stop(now);
      } else if fx.timerStart {
        timer.Start(now);
      }
      if fx.resize {
        OnResize(completedFirst, completedSecond);
      }
    }

    /** One idle turn of the message loop: Tick the timer, and draw unless paused. */
    method RunFrame(now: int, completed: nat)
      requires Valid()
      modifies this, timer
      ensures Valid() && Flags() == old(Flags())
      ensures timer.State() == Timer.AfterTick(old(timer.State()), now)
      ensures currBackBuffer == if appPaused then old(currBackBuffer) else NextBackBuffer(old(currBackBuffer))
      ensures currentFence == if appPaused then old(currentFence) else NextFence(old(currentFence))
    {
      timer.Tick(now);
      if !appPaused {
        var _ := Draw(completed);
      }
    }
  }
}
