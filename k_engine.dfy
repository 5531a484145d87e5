/** `KEngine`: the renderer's lifecycle (`init`, `cleanUp`), its main loop
    (`run`) and its per-frame scheduler (`draw`, `currentFrame`). The engine
    is a state machine over its own fields. Every Vulkan, SDL or vk-bootstrap
    call it makes is recorded, with the info records it passes, as one event
    of an append-only trace. The driver's fresh handles come from a counter,
    so every object the engine creates gets a handle it has not seen before. */
module Engine {
  import opened VkTypes
  import opened VkInitializer

  /** `FRAME_OVERLAP`: the number of frames in flight. */
  const FRAME_OVERLAP: nat := 2

  /** The layouts `draw` moves a swapchain image through. */
  datatype ImageLayout = Undefined | General | PresentSrc

  /** `FrameData`: one frame slot's command pool and buffer, its fence, and
      the semaphore the swapchain signals when an image is acquired. */
  datatype FrameData = FrameData(
    commandPool: Handle, commandBuffer: Handle, fence: Handle, swapchainSemaphore: Handle)

  const NullFrame := FrameData(NullHandle, NullHandle, NullHandle, NullHandle)

  /** The SDL event types `run` reacts to; every other type is ignored. */
  datatype WindowEvent = Quit | Minimized | Restored | OtherEvent(eventType: nat)

  /** One call the engine makes into Vulkan, SDL or vk-bootstrap. The three
      set-up steps and the swapchain, device, surface, messenger, instance
      and window teardown are opaque. */
  datatype ApiEvent =
    | InitWindow
    | InitVulkan
    | InitSwapChain
    | CreateCommandPool(poolInfo: CommandPoolCreateInfo, pool: Handle)
    | AllocateCommandBuffer(allocateInfo: CommandBufferAllocateInfo, commandBuffer: Handle)
    | CreateFence(fenceInfo: FenceCreateInfo, fence: Handle)
    | CreateSemaphore(semaphoreInfo: SemaphoreCreateInfo, semaphore: Handle)
    | WaitForFence(fence: Handle)
    | ResetFence(fence: Handle)
    | AcquireNextImage(semaphore: Handle, imageIndex: nat)
    | ResetCommandBuffer(commandBuffer: Handle)
    | BeginCommandBuffer(commandBuffer: Handle, beginInfo: CommandBufferBeginInfo)
    | TransitionImage(commandBuffer: Handle, image: Handle, oldLayout: ImageLayout, newLayout: ImageLayout)
    | ClearColorImage(commandBuffer: Handle, image: Handle, layout: ImageLayout, range: ImageSubresourceRange)
    | EndCommandBuffer(commandBuffer: Handle)
    | QueueSubmit(submitInfo: SubmitInfo2, fence: Handle)
    | QueuePresent(waitSemaphore: Handle, imageIndex: nat)
    | Sleep(milliseconds: nat)
    | DeviceWaitIdle
    | DestroyCommandPool(pool: Handle)
    | DestroyFence(fence: Handle)
    | DestroySemaphore(semaphore: Handle)
    | DestroySwapChain
    | DestroyDevice
    | DestroySurface
    | DestroyDebugMessenger
    | DestroyInstance
    | DestroyWindow

  // ---------------------------------------------------------------------
  // Frame slots

  /** `currentFrame`'s index: `(mFrameCounter + 1) % FRAME_OVERLAP`, with the
      sum taken in `uint` arithmetic. */
  function FrameSlot(counter: u32): (slot: nat)
    ensures slot < FRAME_OVERLAP
  {
    Narrow(counter + 1) % FRAME_OVERLAP
  }

  /** `mFrameCounter++` on a `uint`. */
  function NextCounter(counter: u32): (next: u32)
    ensures counter < U32_LIMIT - 1 ==> next == counter + 1
    ensures counter == U32_LIMIT - 1 ==> next == 0
  {
    Narrow(counter + 1)
  }

  /** The slot is always the one after the counter's parity: slot
      `(counter + 1) % 2`, never `counter % 2`, also at the wrap-around
      (2^32 is even). */
  lemma SlotLeadsCounter(counter: u32)
    ensures FrameSlot(counter) == (counter + 1) % FRAME_OVERLAP
    ensures FrameSlot(counter) != counter % FRAME_OVERLAP
  {
    if counter == U32_LIMIT - 1 {
      assert Narrow(counter + 1) == 0;
    }
  }

  /** Two consecutive draws use different frame slots, also when the
      counter wraps around from 2^32 - 1 to 0. */
  lemma ConsecutiveDrawsAlternate(counter: u32)
    ensures FrameSlot(NextCounter(counter)) != FrameSlot(counter)
  {
    SlotLeadsCounter(counter);
    SlotLeadsCounter(NextCounter(counter));
    if counter == U32_LIMIT - 1 {
      assert NextCounter(counter) == 0;
    }
  }

  // ---------------------------------------------------------------------
  // The events of one draw

  /** The submit record `draw` builds: one command buffer, waiting on the
      slot's acquire semaphore and signalling `signal`, both at the
      colour-attachment-output stage. */
  function DrawSubmitInfo(frame: FrameData, signal: Handle): SubmitInfo2 {
    CreateSubmitInfo(
      Ref(CreateCommandBufferSubmitInfo(frame.commandBuffer)),
      Ref(CreateSemaphoreSubmitInfo(signal, PIPELINE_STAGE_2_COLOR_ATTACHMENT_OUTPUT_BIT)),
      Ref(CreateSemaphoreSubmitInfo(frame.swapchainSemaphore, PIPELINE_STAGE_2_COLOR_ATTACHMENT_OUTPUT_BIT)))
  }

  /** The start of a frame: wait on and reset the slot's fence, then
      acquire image `imageIndex` with the slot's semaphore. */
  function FrameStartEvents(frame: FrameData, imageIndex: nat): seq<ApiEvent> {
    [ WaitForFence(frame.fence),
      ResetFence(frame.fence),
      AcquireNextImage(frame.swapchainSemaphore, imageIndex) ]
  }

  /** The image's layout changes and the clear recorded in between. */
  function ClearEvents(cmd: Handle, image: Handle): seq<ApiEvent> {
    [ TransitionImage(cmd, image, Undefined, General),
      ClearColorImage(cmd, image, General, ImageSubresourceRangeFor(IMAGE_ASPECT_COLOR_BIT)),
      TransitionImage(cmd, image, General, PresentSrc) ]
  }

  /** The recording of the slot's command buffer: reset, begin for one
      submission, the clear, end. */
  function RecordEvents(cmd: Handle, image: Handle): seq<ApiEvent> {
    [ ResetCommandBuffer(cmd),
      BeginCommandBuffer(cmd, CreateCommandBufferBeginInfo(COMMAND_BUFFER_USAGE_ONE_TIME_SUBMIT_BIT)) ]
      + ClearEvents(cmd, image)
      + [EndCommandBuffer(cmd)]
  }

  /** The submission with the slot's fence, then the presentation of image
      `imageIndex` once `signal` is signalled. */
  function SubmitEvents(frame: FrameData, signal: Handle, imageIndex: nat): seq<ApiEvent> {
    [ QueueSubmit(DrawSubmitInfo(frame, signal), frame.fence),
      QueuePresent(signal, imageIndex) ]
  }

  /** The calls one `draw` makes, in order, on frame slot `frame`, for the
      acquired image `image` at `imageIndex` whose signal semaphore is
      `signal`. */
  function DrawEvents(frame: FrameData, image: Handle, imageIndex: nat, signal: Handle): seq<ApiEvent> {
    FrameStartEvents(frame, imageIndex)
      + RecordEvents(frame.commandBuffer, image)
      + SubmitEvents(frame, signal, imageIndex)
  }

  /** The submit and the present of a draw are linked: the submit waits on
      the semaphore the acquire signals, signals exactly the semaphore the
      present waits on, and fences with the fence the draw waited on and
      reset; it submits the slot's command buffer, and acquire and present
      name the same image. */
  lemma DrawSubmitPresentLink(frame: FrameData, image: Handle, imageIndex: nat, signal: Handle)
    ensures var evs := DrawEvents(frame, image, imageIndex, signal);
      && |evs| == 11
      && evs[0] == WaitForFence(frame.fence) && evs[1] == ResetFence(frame.fence)
      && evs[2].AcquireNextImage? && evs[9].QueueSubmit? && evs[10].QueuePresent?
      && var submit := evs[9].submitInfo;
      && submit.waitSemaphoreInfoCount == 1 && submit.pWaitSemaphoreInfos.Ref?
      && submit.pWaitSemaphoreInfos.target.semaphore == evs[2].semaphore == frame.swapchainSemaphore
      && submit.signalSemaphoreInfoCount == 1 && submit.pSignalSemaphoreInfos.Ref?
      && submit.pSignalSemaphoreInfos.target.semaphore == evs[10].waitSemaphore == signal
      && submit.pWaitSemaphoreInfos.target.stageMask == PIPELINE_STAGE_2_COLOR_ATTACHMENT_OUTPUT_BIT
      && submit.pSignalSemaphoreInfos.target.stageMask == PIPELINE_STAGE_2_COLOR_ATTACHMENT_OUTPUT_BIT
      && submit.commandBufferInfoCount == 1 && submit.pCommandBufferInfos.Ref?
      && submit.pCommandBufferInfos.target.commandBuffer == frame.commandBuffer
      && evs[9].fence == frame.fence
      && evs[2].imageIndex == evs[10].imageIndex == imageIndex
  {
    var start, record, submit := FrameStartEvents(frame, imageIndex),
      RecordEvents(frame.commandBuffer, image), SubmitEvents(frame, signal, imageIndex);
    var evs := DrawEvents(frame, image, imageIndex, signal);
    assert |record| == 6;
    assert evs[..3] == start && evs[9..] == submit;
  }

  // ---------------------------------------------------------------------
  // Image layouts

  /** How one event moves `image`'s layout from `current`: a transition is
      valid from its stated old layout, or from any layout when it discards
      the contents (old layout UNDEFINED); a clear is valid only in the
      layout the image is in. `None` marks an invalid use. */
  function LayoutStep(e: ApiEvent, image: Handle, current: ImageLayout): Option<ImageLayout> {
    if e.TransitionImage? && e.image == image then
      if e.oldLayout == Undefined || e.oldLayout == current then Some(e.newLayout) else None
    else if e.ClearColorImage? && e.image == image then
      if e.layout == current then Some(current) else None
    else
      Some(current)
  }

  /** `image`'s layout after a sequence of events, or `None` if one of them
      uses the image in a layout it is not in. */
  function LayoutAfter(evs: seq<ApiEvent>, image: Handle, current: ImageLayout): Option<ImageLayout> {
    if evs == [] then Some(current)
    else match LayoutAfter(evs[..|evs| - 1], image, current)
      case None => None
      case Some(l) => LayoutStep(evs[|evs| - 1], image, l)
  }

  /** Tracking goes on from `layout`, or stays failed. */
  function ContinueLayout(layout: Option<ImageLayout>, evs: seq<ApiEvent>, image: Handle): Option<ImageLayout> {
    match layout
    case None => None
    case Some(l) => LayoutAfter(evs, image, l)
  }

  /** Layout tracking composes over concatenated event sequences. */
  lemma {:induction false} LayoutAfterAppend(a: seq<ApiEvent>, b: seq<ApiEvent>, image: Handle, current: ImageLayout)
    ensures LayoutAfter(a + b, image, current) == ContinueLayout(LayoutAfter(a, image, current), b, image)
    decreases |b|
  {
    if b == [] {
      assert a + b == a;
    } else {
      assert (a + b)[..|a + b| - 1] == a + b[..|b| - 1];
      LayoutAfterAppend(a, b[..|b| - 1], image, current);
    }
  }

  /** Whether `e` uses `image`. */
  predicate Touches(e: ApiEvent, image: Handle) {
    (e.TransitionImage? || e.ClearColorImage?) && e.image == image
  }

  /** Events that do not use `image` leave its layout alone. */
  lemma {:induction false} LayoutUntouched(evs: seq<ApiEvent>, image: Handle, current: ImageLayout)
    requires forall k :: 0 <= k < |evs| ==> !Touches(evs[k], image)
    ensures LayoutAfter(evs, image, current) == Some(current)
  {
    if evs != [] {
      LayoutUntouched(evs[..|evs| - 1], image, current);
    }
  }

  /** The layouts of one draw form a chain: UNDEFINED to GENERAL, the clear
      in GENERAL, then GENERAL to PRESENT_SRC, so the drawn image ends ready
      for presentation whatever layout it was in; no other image changes. */
  lemma DrawLayoutChain(frame: FrameData, image: Handle, imageIndex: nat, signal: Handle,
                        target: Handle, current: ImageLayout)
    ensures var clear := ClearEvents(frame.commandBuffer, image);
      && clear[0].TransitionImage? && clear[1].ClearColorImage? && clear[2].TransitionImage?
      && clear[0].oldLayout == Undefined && clear[0].newLayout == clear[1].layout == General
      && clear[2].oldLayout == clear[1].layout && clear[2].newLayout == PresentSrc
    ensures LayoutAfter(DrawEvents(frame, image, imageIndex, signal), target, current)
      == Some(if target == image then PresentSrc else current)
  {
    var cmd := frame.commandBuffer;
    var final := if target == image then PresentSrc else current;
    var start := FrameStartEvents(frame, imageIndex);
    var begin := [ResetCommandBuffer(cmd),
                  BeginCommandBuffer(cmd, CreateCommandBufferBeginInfo(COMMAND_BUFFER_USAGE_ONE_TIME_SUBMIT_BIT))];
    var clear := ClearEvents(cmd, image);
    var end := [EndCommandBuffer(cmd)] + SubmitEvents(frame, signal, imageIndex);
    assert DrawEvents(frame, image, imageIndex, signal) == (start + begin) + clear + end;
    LayoutUntouched(start + begin, target, current);
    LayoutUntouched(end, target, final);
    assert LayoutAfter(clear, target, current) == Some(final) by {
      var middle := if target == image then General else current;
      assert clear[..1][..0] == [];
      assert LayoutAfter(clear[..1], target, current) == Some(middle);
      assert clear[..2][..1] == clear[..1];
      assert LayoutAfter(clear[..2], target, current) == Some(middle);
      assert clear[..|clear| - 1] == clear[..2];
    }
    LayoutAfterAppend(start + begin, clear, target, current);
    LayoutAfterAppend((start + begin) + clear, end, target, current);
  }

  /** The arguments of one draw. */
  datatype DrawCall = DrawCall(frame: FrameData, image: Handle, imageIndex: nat, signal: Handle)

  /** The events of a sequence of draws. */
  function DrawsEvents(ds: seq<DrawCall>): seq<ApiEvent> {
    if ds == [] then []
    else
      var d := ds[|ds| - 1];
      DrawsEvents(ds[..|ds| - 1]) + DrawEvents(d.frame, d.image, d.imageIndex, d.signal)
  }

  /** Whether one of the draws `ds` drew `image`. */
  predicate DrewImage(ds: seq<DrawCall>, image: Handle) {
    exists k :: 0 <= k < |ds| && ds[k].image == image
  }

  /** One more draw moves the image it draws to PRESENT_SRC and leaves the
      others alone. */
  lemma DrawsLayoutStep(ds: seq<DrawCall>, target: Handle, current: ImageLayout, mid: ImageLayout)
    requires ds != []
    requires LayoutAfter(DrawsEvents(ds[..|ds| - 1]), target, current) == Some(mid)
    ensures LayoutAfter(DrawsEvents(ds), target, current)
      == Some(if ds[|ds| - 1].image == target then PresentSrc else mid)
  {
    var d := ds[|ds| - 1];
    LayoutAfterAppend(DrawsEvents(ds[..|ds| - 1]), DrawEvents(d.frame, d.image, d.imageIndex, d.signal), target, current);
    DrawLayoutChain(d.frame, d.image, d.imageIndex, d.signal, target, mid);
  }

  /** Across any number of frames the layout chain of every swapchain image
      stays valid: an image that was drawn at least once is ready for
      presentation, any other image keeps its layout. */
  lemma {:induction false} DrawsKeepLayoutChain(ds: seq<DrawCall>, target: Handle, current: ImageLayout)
    ensures LayoutAfter(DrawsEvents(ds), target, current)
      == Some(if DrewImage(ds, target) then PresentSrc else current)
  {
    if ds != [] {
      var init, d := ds[..|ds| - 1], ds[|ds| - 1];
      DrawsKeepLayoutChain(init, target, current);
      DrawsLayoutStep(ds, target, current, if DrewImage(init, target) then PresentSrc else current);
      if DrewImage(init, target) {
        var k :| 0 <= k < |init| && init[k].image == target;
        assert ds[k] == init[k];
      }
      if d.image == target {
        assert ds[|ds| - 1].image == target;
      }
      if DrewImage(ds, target) {
        var k :| 0 <= k < |ds| && ds[k].image == target;
        if k < |init| {
          assert init[k] == ds[k];
        }
      }
    }
  }

  // ---------------------------------------------------------------------
  // Window events

  /** `mStopRendering` after `run`'s inner loop has polled `events`,
      starting from `stop`. */
  function StopAfter(events: seq<WindowEvent>, stop: bool): bool {
    if events == [] then stop
    else
      var before := StopAfter(events[..|events| - 1], stop);
      match events[|events| - 1]
      case Minimized => true
      case Restored => false
      case _ => before
  }

  /** Whether `e` toggles rendering. */
  predicate Toggles(e: WindowEvent) {
    e == Minimized || e == Restored
  }

  /** The later of MINIMIZED and RESTORED in a batch wins: the flag is set
      exactly when the last toggling event is MINIMIZED. */
  lemma {:induction false} LastToggleWins(events: seq<WindowEvent>, stop: bool, k: nat)
    requires k < |events| && Toggles(events[k])
    requires forall j :: k < j < |events| ==> !Toggles(events[j])
    ensures StopAfter(events, stop) == (events[k] == Minimized)
  {
    if k < |events| - 1 {
      LastToggleWins(events[..|events| - 1], stop, k);
    }
  }

  /** A batch without MINIMIZED or RESTORED leaves the flag as it was. */
  lemma {:induction false} NoToggleKeepsFlag(events: seq<WindowEvent>, stop: bool)
    requires forall j :: 0 <= j < |events| ==> !Toggles(events[j])
    ensures StopAfter(events, stop) == stop
  {
    if events != [] {
      NoToggleKeepsFlag(events[..|events| - 1], stop);
    }
  }

  /** Regrouping a concatenation. */
  lemma AppendAssociative<T>(a: seq<T>, b: seq<T>, c: seq<T>)
    ensures (a + b) + c == a + (b + c)
  {
  }

  /** A prefix is the shorter prefix and the element after it. */
  lemma PrefixSnoc<T>(s: seq<T>, n: nat)
    requires 0 < n <= |s|
    ensures s[..n] == s[..n - 1] + [s[n - 1]]
  {
  }

  /** Polling `a` then `b` is polling `a + b`. */
  lemma {:induction false} StopAfterAppend(a: seq<WindowEvent>, b: seq<WindowEvent>, stop: bool)
    ensures StopAfter(a + b, stop) == StopAfter(b, StopAfter(a, stop))
    decreases |b|
  {
    if b == [] {
      assert a + b == a;
    } else {
      assert (a + b)[..|a + b| - 1] == a + b[..|b| - 1];
      StopAfterAppend(a, b[..|b| - 1], stop);
    }
  }

  /** The window events of `batches`, in the order `run` polls them. */
  function Polled(batches: seq<seq<WindowEvent>>): seq<WindowEvent> {
    if batches == [] then [] else Polled(batches[..|batches| - 1]) + batches[|batches| - 1]
  }

  /** What one iteration of `run` did: slept, or drew image `imageIndex`
      with the frame counter at `counter`. */
  datatype Iteration = Slept | Drew(counter: u32, imageIndex: nat)

  /** What `run` has done after some iterations: whether QUIT has been
      polled, `mStopRendering`, `mFrameCounter`, and each iteration. */
  datatype RunState = RunState(quit: bool, stop: bool, counter: u32, iterations: seq<Iteration>)

  /** Iteration `k` drew, if it drew at all, the image handed out for it. */
  predicate DrawsAcquired(iterations: seq<Iteration>, acquired: seq<nat>) {
    forall k :: 0 <= k < |iterations| ==>
      k < |acquired| && (iterations[k].Drew? ==> iterations[k].imageIndex == acquired[k])
  }

  /** One iteration of `run` after `s`: poll `batch`, then sleep while
      rendering is stopped, or draw image `imageIndex` and advance the
      counter. */
  function RunIteration(s: RunState, batch: seq<WindowEvent>, imageIndex: nat): RunState {
    var stop := StopAfter(batch, s.stop);
    if stop then RunState(s.quit || Quit in batch, stop, s.counter, s.iterations + [Slept])
    else RunState(s.quit || Quit in batch, stop, NextCounter(s.counter), s.iterations + [Drew(s.counter, imageIndex)])
  }

  /** `run`, started with flag `stop` and counter `counter`, over the first
      `n` batches: iteration `k` polls `batches[k]` and, if it draws, draws
      image `acquired[k]`. The loop leaves after the iteration that polled
      QUIT, so the batches after it are never polled. */
  function RunLoop(batches: seq<seq<WindowEvent>>, acquired: seq<nat>, stop: bool, counter: u32, n: nat)
    : (r: RunState)
    requires n <= |batches| == |acquired|
    ensures |r.iterations| <= n
    ensures !r.quit ==> |r.iterations| == n
  {
    if n == 0 then RunState(false, stop, counter, [])
    else
      var prev := RunLoop(batches, acquired, stop, counter, n - 1);
      if prev.quit then prev
      else RunIteration(prev, batches[n - 1], acquired[n - 1])
  }

  /** Once QUIT has been polled, `run` does nothing more. */
  lemma {:induction false} RunLoopAfterQuit(batches: seq<seq<WindowEvent>>, acquired: seq<nat>,
                                            stop: bool, counter: u32, m: nat, n: nat)
    requires m <= n <= |batches| == |acquired|
    requires RunLoop(batches, acquired, stop, counter, m).quit
    ensures RunLoop(batches, acquired, stop, counter, n) == RunLoop(batches, acquired, stop, counter, m)
  {
    if m < n {
      RunLoopAfterQuit(batches, acquired, stop, counter, m, n - 1);
    }
  }

  /** Every draw of `run` uses the image handed out in its own iteration. */
  lemma {:induction false} RunLoopDrawsAcquired(batches: seq<seq<WindowEvent>>, acquired: seq<nat>,
                                                stop: bool, counter: u32, n: nat)
    requires n <= |batches| == |acquired|
    ensures DrawsAcquired(RunLoop(batches, acquired, stop, counter, n).iterations, acquired)
  {
    if n > 0 {
      RunLoopDrawsAcquired(batches, acquired, stop, counter, n - 1);
      var prev := RunLoop(batches, acquired, stop, counter, n - 1);
      if !prev.quit {
        var r := RunLoop(batches, acquired, stop, counter, n);
        assert r.iterations == prev.iterations + [r.iterations[n - 1]];
        forall k | 0 <= k < |r.iterations|
          ensures k < |acquired| && (r.iterations[k].Drew? ==> r.iterations[k].imageIndex == acquired[k])
        {
          if k < n - 1 {
            assert r.iterations[k] == prev.iterations[k];
          }
        }
      }
    }
  }

  /** `run` iterates until the first batch that holds QUIT, that one included. */
  lemma {:induction false} RunLoopQuits(batches: seq<seq<WindowEvent>>, acquired: seq<nat>,
                                        stop: bool, counter: u32, n: nat)
    requires n <= |batches| == |acquired|
    ensures var r := RunLoop(batches, acquired, stop, counter, n);
      && (forall k :: 0 <= k < |r.iterations| - 1 ==> Quit !in batches[k])
      && (r.quit <==> 0 < |r.iterations| && Quit in batches[|r.iterations| - 1])
  {
    if n > 0 {
      RunLoopQuits(batches, acquired, stop, counter, n - 1);
    }
  }

  /** Iteration `k` of `run` happened in the state the first `k`
      iterations left, which QUIT had not ended, and it slept or drew as
      the flag after polling `batches[k]` said. */
  lemma {:induction false} RunLoopIterationAt(batches: seq<seq<WindowEvent>>, acquired: seq<nat>,
                                              stop: bool, counter: u32, n: nat, k: nat)
    requires n <= |batches| == |acquired|
    requires k < |RunLoop(batches, acquired, stop, counter, n).iterations|
    ensures var before := RunLoop(batches, acquired, stop, counter, k);
      var r := RunLoop(batches, acquired, stop, counter, n);
      && !before.quit && r.iterations[..k] == before.iterations
      && r.iterations[k] == (if StopAfter(batches[k], before.stop) then Slept else Drew(before.counter, acquired[k]))
  {
    var prev := RunLoop(batches, acquired, stop, counter, n - 1);
    var r := RunLoop(batches, acquired, stop, counter, n);
    if prev.quit {
      RunLoopIterationAt(batches, acquired, stop, counter, n - 1, k);
    } else if k < n - 1 {
      RunLoopIterationAt(batches, acquired, stop, counter, n - 1, k);
      assert r.iterations[..n - 1] == prev.iterations;
      assert r.iterations[..k] == prev.iterations[..k];
    } else {
      assert r.iterations[..k] == prev.iterations;
    }
  }

  /** The flag `run` ends with is the one after the last batch it polled. */
  lemma {:induction false} RunLoopStop(batches: seq<seq<WindowEvent>>, acquired: seq<nat>,
                                       stop: bool, counter: u32, n: nat)
    requires n <= |batches| == |acquired|
    ensures var r := RunLoop(batches, acquired, stop, counter, n);
      r.stop == StopAfter(Polled(batches[..|r.iterations|]), stop)
  {
    if n == 0 {
      assert Polled(batches[..0]) == [];
    } else {
      RunLoopStop(batches, acquired, stop, counter, n - 1);
      var prev := RunLoop(batches, acquired, stop, counter, n - 1);
      if !prev.quit {
        assert batches[..n][..n - 1] == batches[..n - 1];
        assert Polled(batches[..n]) == Polled(batches[..n - 1]) + batches[n - 1];
        StopAfterAppend(Polled(batches[..n - 1]), batches[n - 1], stop);
      }
    }
  }

  /** Iteration `k` sleeps exactly when the last MINIMIZED or RESTORED
      polled up to then, in its own batch or an earlier one, was MINIMIZED
      (or there was none and rendering was stopped to begin with). */
  lemma RunSleepsWhileStopped(batches: seq<seq<WindowEvent>>, acquired: seq<nat>,
                              stop: bool, counter: u32, n: nat, k: nat)
    requires n <= |batches| == |acquired|
    requires k < |RunLoop(batches, acquired, stop, counter, n).iterations|
    ensures RunLoop(batches, acquired, stop, counter, n).iterations[k].Slept?
      <==> StopAfter(Polled(batches[..k + 1]), stop)
  {
    RunLoopIterationAt(batches, acquired, stop, counter, n, k);
    RunLoopStop(batches, acquired, stop, counter, k);
    assert batches[..k + 1][..k] == batches[..k];
    assert Polled(batches[..k + 1]) == Polled(batches[..k]) + batches[k];
    StopAfterAppend(Polled(batches[..k]), batches[k], stop);
  }

  /** The number of iterations that drew. */
  function DrawCount(iterations: seq<Iteration>): nat {
    if iterations == [] then 0
    else DrawCount(iterations[..|iterations| - 1]) + (if iterations[|iterations| - 1].Drew? then 1 else 0)
  }

  /** The counter of `r` is the start counter advanced once per draw
      (modulo 2^32). */
  predicate CounterTracksDraws(r: RunState, counter: u32) {
    r.counter == Narrow(counter + DrawCount(r.iterations))
  }

  /** Only drawing moves the counter: `run` ends with the counter advanced
      once per draw (modulo 2^32). */
  lemma {:induction false} RunLoopCounter(batches: seq<seq<WindowEvent>>, acquired: seq<nat>,
                                          stop: bool, counter: u32, n: nat)
    requires n <= |batches| == |acquired|
    ensures CounterTracksDraws(RunLoop(batches, acquired, stop, counter, n), counter)
  {
    if n > 0 {
      RunLoopCounter(batches, acquired, stop, counter, n - 1);
      var prev := RunLoop(batches, acquired, stop, counter, n - 1);
      if !prev.quit {
        IterationCounter(counter, prev, batches[n - 1], acquired[n - 1]);
      }
    }
  }

  /** One iteration keeps the counter at the start counter plus the draws. */
  lemma IterationCounter(counter: u32, s: RunState, batch: seq<WindowEvent>, imageIndex: nat)
    requires CounterTracksDraws(s, counter)
    ensures CounterTracksDraws(RunIteration(s, batch, imageIndex), counter)
  {
    if StopAfter(batch, s.stop) {
      CounterStep(counter, s.iterations, Slept, s.counter, s.counter);
    } else {
      CounterStep(counter, s.iterations, Drew(s.counter, imageIndex), s.counter, NextCounter(s.counter));
    }
  }

  /** Appending one iteration to `iterations` keeps the counter at the start
      counter plus the draws. */
  lemma CounterStep(counter: u32, iterations: seq<Iteration>, it: Iteration, c: u32, c': u32)
    requires c == Narrow(counter + DrawCount(iterations))
    requires c' == (if it.Drew? then NextCounter(c) else c)
    ensures c' == Narrow(counter + DrawCount(iterations + [it]))
  {
    assert (iterations + [it])[..|iterations|] == iterations;
    if it.Drew? {
      NarrowStep(counter + DrawCount(iterations), counter + DrawCount(iterations + [it]));
    }
  }

  /** Frame slots alternate from one draw to the next, whatever sleeps lie
      between them: the draw that follows `d` earlier draws uses slot
      `(counter + d + 1) % 2`, where `counter` is the counter `run` started
      with. */
  lemma RunDrawSlots(batches: seq<seq<WindowEvent>>, acquired: seq<nat>, stop: bool, counter: u32, n: nat, k: nat)
    requires n <= |batches| == |acquired|
    requires k < |RunLoop(batches, acquired, stop, counter, n).iterations|
    requires RunLoop(batches, acquired, stop, counter, n).iterations[k].Drew?
    ensures var r := RunLoop(batches, acquired, stop, counter, n);
      FrameSlot(r.iterations[k].counter) == (counter + DrawCount(r.iterations[..k]) + 1) % FRAME_OVERLAP
  {
    RunLoopIterationAt(batches, acquired, stop, counter, n, k);
    RunLoopCounter(batches, acquired, stop, counter, k);
    var d := DrawCount(RunLoop(batches, acquired, stop, counter, n).iterations[..k]);
    NarrowStep(counter + d, counter + d + 1);
    NarrowParity(counter + d + 1);
  }

  /** The presentation engine hands out only images the engine has a
      signal semaphore for. */
  predicate ImagesAcquirable(acquired: seq<nat>, images: seq<Handle>, signals: seq<Handle>) {
    forall k :: 0 <= k < |acquired| ==> acquired[k] < |images| && acquired[k] < |signals|
  }

  /** The calls of one iteration: a 100 ms sleep, or one `draw`. The
      presentation engine hands out only images that have a signal
      semaphore (`ImagesAcquirable`); any other index makes no calls. */
  function IterationCalls(it: Iteration, slots: seq<FrameData>, images: seq<Handle>, signals: seq<Handle>)
    : seq<ApiEvent>
    requires |slots| == FRAME_OVERLAP
  {
    match it
    case Slept => [Sleep(100)]
    case Drew(counter, imageIndex) =>
      if imageIndex >= |images| || imageIndex >= |signals| then [] else
      DrawEvents(slots[FrameSlot(counter)], images[imageIndex], imageIndex, signals[imageIndex])
  }

  /** `run`, started with flag `stop` and counter `counter`, has polled the
      first `i` batches (or stopped at QUIT before): `quit`, `stop'`,
      `counter'` and the calls `made` are what those iterations left. */
  ghost predicate RunSoFar(batches: seq<seq<WindowEvent>>, acquired: seq<nat>, slots: seq<FrameData>,
                           images: seq<Handle>, signals: seq<Handle>, stop: bool, counter: u32, i: nat,
                           quit: bool, stop': bool, counter': u32, made: seq<ApiEvent>)
  {
    && i <= |batches| == |acquired| && |slots| == FRAME_OVERLAP
    && var r := RunLoop(batches, acquired, stop, counter, i);
    && quit == r.quit && stop' == r.stop && counter' == r.counter
    && made == Calls(r.iterations, slots, images, signals)
  }

  /** Before its first iteration `run` has made no call and changed nothing. */
  lemma RunStarts(batches: seq<seq<WindowEvent>>, acquired: seq<nat>, slots: seq<FrameData>,
                  images: seq<Handle>, signals: seq<Handle>, stop: bool, counter: u32)
    requires |batches| == |acquired| && |slots| == FRAME_OVERLAP
    ensures RunSoFar(batches, acquired, slots, images, signals, stop, counter, 0, false, stop, counter, [])
  {
  }

  /** `run` has left its loop, after QUIT or once the batches ran out: what
      its iterations left is what the whole run leaves. */
  lemma RunFinished(batches: seq<seq<WindowEvent>>, acquired: seq<nat>, slots: seq<FrameData>,
                    images: seq<Handle>, signals: seq<Handle>, stop: bool, counter: u32, i: nat,
                    quit: bool, stop': bool, counter': u32, made: seq<ApiEvent>)
    requires RunSoFar(batches, acquired, slots, images, signals, stop, counter, i, quit, stop', counter', made)
    requires quit || i == |batches|
    ensures var r := RunLoop(batches, acquired, stop, counter, |batches|);
      stop' == r.stop && counter' == r.counter && made == Calls(r.iterations, slots, images, signals)
  {
    if quit {
      RunLoopAfterQuit(batches, acquired, stop, counter, i, |batches|);
    }
  }

  /** One more iteration of `run`: after polling `batches[i]`, it sleeps or
      draws as the new flag says, and the calls it makes extend the calls
      made so far. */
  lemma RunLoopStep(batches: seq<seq<WindowEvent>>, acquired: seq<nat>, slots: seq<FrameData>,
                    images: seq<Handle>, signals: seq<Handle>, stop: bool, counter: u32, i: nat,
                    stop': bool, counter': u32, made: seq<ApiEvent>, it: Iteration,
                    next: nat, quit: bool, stop'': bool, counter'': u32, made': seq<ApiEvent>)
    requires RunSoFar(batches, acquired, slots, images, signals, stop, counter, i, false, stop', counter', made)
    requires i < |batches| && next == i + 1
    requires it == (if StopAfter(batches[i], stop') then Slept else Drew(counter', acquired[i]))
    requires quit == (Quit in batches[i]) && stop'' == StopAfter(batches[i], stop')
    requires counter'' == if stop'' then counter' else NextCounter(counter')
    requires made' == made + IterationCalls(it, slots, images, signals)
    ensures RunSoFar(batches, acquired, slots, images, signals, stop, counter, next, quit, stop'', counter'', made')
  {
    var prev := RunLoop(batches, acquired, stop, counter, i);
    var r := RunLoop(batches, acquired, stop, counter, next);
    assert r.iterations == prev.iterations + [it];
    assert r.iterations[..|r.iterations| - 1] == prev.iterations;
  }

  /** The calls of a sequence of iterations, in order. */
  function Calls(iterations: seq<Iteration>, slots: seq<FrameData>,
                 images: seq<Handle>, signals: seq<Handle>): seq<ApiEvent>
    requires |slots| == FRAME_OVERLAP
  {
    if iterations == [] then []
    else
      Calls(iterations[..|iterations| - 1], slots, images, signals)
        + IterationCalls(iterations[|iterations| - 1], slots, images, signals)
  }

  // ---------------------------------------------------------------------
  // Initialisation and teardown

  /** The handles `initCommand` and `initSyncStructures` give frame slot `i`
      when the driver's next fresh handle is `h`. */
  function InitFrame(h: Handle, i: nat): FrameData {
    FrameData(h + 2 * i, h + 2 * i + 1,
              h + 2 * FRAME_OVERLAP + 2 * i, h + 2 * FRAME_OVERLAP + 2 * i + 1)
  }

  function InitFrames(h: Handle): (frames: seq<FrameData>)
    ensures |frames| == FRAME_OVERLAP
  {
    [InitFrame(h, 0), InitFrame(h, 1)]
  }

  /** The calls `initCommand` makes for its first `n` slots: a pool with
      resettable command buffers on `queueFamily`, then one primary command
      buffer from that pool. */
  function CommandEvents(h: Handle, queueFamily: u32, n: nat): seq<ApiEvent> {
    if n == 0 then []
    else
      var pool := h + 2 * (n - 1);
      CommandEvents(h, queueFamily, n - 1)
        + [ CreateCommandPool(CreateCommandPoolInfo(queueFamily, COMMAND_POOL_CREATE_RESET_COMMAND_BUFFER_BIT), pool),
            AllocateCommandBuffer(CreateCommandBufferInfo(pool), pool + 1) ]
  }

  /** The semaphore record `initSyncStructures` uses for every semaphore. */
  const SemaphoreInfo := CreateSemaphoreInfo(0)
  /** The fence record `initSyncStructures` uses: created signalled. */
  const FenceInfo := CreateFenceInfo(FENCE_CREATE_SIGNALED_BIT)

  /** The calls of `initSyncStructures`' first loop for its first `n` slots:
      a fence, then a semaphore. */
  function FrameSyncEvents(h: Handle, n: nat): seq<ApiEvent> {
    if n == 0 then []
    else
      FrameSyncEvents(h, n - 1)
        + [CreateFence(FenceInfo, h + 2 * (n - 1)), CreateSemaphore(SemaphoreInfo, h + 2 * (n - 1) + 1)]
  }

  /** The `n` fresh handles `h`, `h + 1`, ..., `h + n - 1`. */
  function FreshHandles(h: Handle, n: nat): (r: seq<Handle>)
    ensures |r| == n
    ensures forall k :: 0 <= k < n ==> r[k] == h + k
  {
    if n == 0 then [] else FreshHandles(h, n - 1) + [h + n - 1]
  }

  /** The calls of `initSyncStructures`' second loop: one semaphore per
      swapchain image. */
  function SignalEvents(h: Handle, n: nat): seq<ApiEvent> {
    if n == 0 then [] else SignalEvents(h, n - 1) + [CreateSemaphore(SemaphoreInfo, h + n - 1)]
  }

  /** Every call `initSyncStructures` makes, for `imageCount` images. */
  function SyncEvents(h: Handle, imageCount: nat): seq<ApiEvent> {
    FrameSyncEvents(h, FRAME_OVERLAP) + SignalEvents(h + 2 * FRAME_OVERLAP, imageCount)
  }

  /** Every call a successful `init` makes. */
  function InitEvents(h: Handle, queueFamily: u32, imageCount: nat): seq<ApiEvent> {
    [InitWindow, InitVulkan, InitSwapChain]
      + CommandEvents(h, queueFamily, FRAME_OVERLAP)
      + SyncEvents(h + 2 * FRAME_OVERLAP, imageCount)
  }

  /** The destroy calls of `cleanUp`'s first loop over the first `n` slots. */
  function FrameDestroyEvents(frames: seq<FrameData>, n: nat): seq<ApiEvent>
    requires n <= |frames|
  {
    if n == 0 then []
    else
      var f := frames[n - 1];
      FrameDestroyEvents(frames, n - 1)
        + [DestroyCommandPool(f.commandPool), DestroyFence(f.fence), DestroySemaphore(f.swapchainSemaphore)]
  }

  /** The destroy calls of `cleanUp`'s second loop: the first `n` signal semaphores. */
  function SignalDestroyEvents(signals: seq<Handle>, n: nat): seq<ApiEvent>
    requires n <= |signals|
  {
    if n == 0 then [] else SignalDestroyEvents(signals, n - 1) + [DestroySemaphore(signals[n - 1])]
  }

  /** Every call `cleanUp` makes on an initialised engine. */
  function CleanUpEvents(frames: seq<FrameData>, signals: seq<Handle>, imageCount: nat): seq<ApiEvent>
    requires |frames| == FRAME_OVERLAP && imageCount <= |signals|
  {
    [DeviceWaitIdle]
      + FrameDestroyEvents(frames, FRAME_OVERLAP)
      + SignalDestroyEvents(signals, imageCount)
      + [DestroySwapChain, DestroyDevice, DestroySurface, DestroyDebugMessenger, DestroyInstance, DestroyWindow]
  }

  // ---------------------------------------------------------------------
  // What init creates and cleanUp destroys

  /** The pool, fence or semaphore an event creates (command buffers are
      released with their pool). */
  function CreatedBy(e: ApiEvent): seq<Handle> {
    match e
    case CreateCommandPool(_, pool) => [pool]
    case CreateFence(_, fence) => [fence]
    case CreateSemaphore(_, semaphore) => [semaphore]
    case _ => []
  }

  /** The pool, fence or semaphore an event destroys. */
  function DestroyedBy(e: ApiEvent): seq<Handle> {
    match e
    case DestroyCommandPool(pool) => [pool]
    case DestroyFence(fence) => [fence]
    case DestroySemaphore(semaphore) => [semaphore]
    case _ => []
  }

  /** The objects a sequence of events creates, in creation order. */
  function Created(evs: seq<ApiEvent>): seq<Handle> {
    if evs == [] then [] else Created(evs[..|evs| - 1]) + CreatedBy(evs[|evs| - 1])
  }

  /** The objects a sequence of events destroys, in destruction order. */
  function Destroyed(evs: seq<ApiEvent>): seq<Handle> {
    if evs == [] then [] else Destroyed(evs[..|evs| - 1]) + DestroyedBy(evs[|evs| - 1])
  }

  lemma {:induction false} CreatedAppend(a: seq<ApiEvent>, b: seq<ApiEvent>)
    ensures Created(a + b) == Created(a) + Created(b)
    decreases |b|
  {
    if b != [] {
      assert (a + b)[..|a + b| - 1] == a + b[..|b| - 1];
      CreatedAppend(a, b[..|b| - 1]);
    } else {
      assert a + b == a;
    }
  }

  lemma {:induction false} DestroyedAppend(a: seq<ApiEvent>, b: seq<ApiEvent>)
    ensures Destroyed(a + b) == Destroyed(a) + Destroyed(b)
    decreases |b|
  {
    if b != [] {
      assert (a + b)[..|a + b| - 1] == a + b[..|b| - 1];
      DestroyedAppend(a, b[..|b| - 1]);
    } else {
      assert a + b == a;
    }
  }

  /** `initSyncStructures`' second loop creates exactly the fresh handles it
      pushes onto `mSignalSemaphores`. */
  lemma {:induction false} SignalEventsCreate(h: Handle, n: nat)
    ensures Created(SignalEvents(h, n)) == FreshHandles(h, n)
  {
    if n > 0 {
      SignalEventsCreate(h, n - 1);
      var prev := SignalEvents(h, n - 1);
      var e := CreateSemaphore(SemaphoreInfo, h + n - 1);
      CreatedAppend(prev, [e]);
      CreatedOne(e);
    }
  }

  /** `cleanUp`'s second loop destroys exactly the first `n` signal semaphores, in order. */
  lemma {:induction false} SignalDestroyEventsDestroy(signals: seq<Handle>, n: nat)
    requires n <= |signals|
    ensures Destroyed(SignalDestroyEvents(signals, n)) == signals[..n]
  {
    if n > 0 {
      SignalDestroyEventsDestroy(signals, n - 1);
      var prev := SignalDestroyEvents(signals, n - 1);
      var e := DestroySemaphore(signals[n - 1]);
      DestroyedAppend(prev, [e]);
      DestroyedOne(e);
      PrefixSnoc(signals, n);
    }
  }

  lemma CreatedOne(e: ApiEvent)
    ensures Created([e]) == CreatedBy(e)
  {
    assert [e][..0] == [];
  }

  lemma DestroyedOne(e: ApiEvent)
    ensures Destroyed([e]) == DestroyedBy(e)
  {
    assert [e][..0] == [];
  }

  /** A sequence of events none of which creates an object creates nothing. */
  lemma {:induction false} CreatedNone(evs: seq<ApiEvent>)
    requires forall k :: 0 <= k < |evs| ==> CreatedBy(evs[k]) == []
    ensures Created(evs) == []
  {
    if evs != [] {
      CreatedNone(evs[..|evs| - 1]);
    }
  }

  /** A sequence of events none of which destroys an object destroys nothing. */
  lemma {:induction false} DestroyedNone(evs: seq<ApiEvent>)
    requires forall k :: 0 <= k < |evs| ==> DestroyedBy(evs[k]) == []
    ensures Destroyed(evs) == []
  {
    if evs != [] {
      DestroyedNone(evs[..|evs| - 1]);
    }
  }

  /** The objects two events create. */
  lemma CreatedTwo(e1: ApiEvent, e2: ApiEvent)
    ensures Created([e1, e2]) == CreatedBy(e1) + CreatedBy(e2)
  {
    assert [e1, e2][..1] == [e1];
    CreatedOne(e1);
  }

  /** Slot `n - 1` of `initCommand` creates its pool (the command buffer goes
      with the pool). */
  lemma CommandEventsStep(h: Handle, queueFamily: u32, n: nat)
    requires 0 < n
    ensures Created(CommandEvents(h, queueFamily, n))
      == Created(CommandEvents(h, queueFamily, n - 1)) + [h + 2 * (n - 1)]
  {
    var pool := h + 2 * (n - 1);
    var create := CreateCommandPool(CreateCommandPoolInfo(queueFamily, COMMAND_POOL_CREATE_RESET_COMMAND_BUFFER_BIT), pool);
    var allocate := AllocateCommandBuffer(CreateCommandBufferInfo(pool), pool + 1);
    CreatedAppend(CommandEvents(h, queueFamily, n - 1), [create, allocate]);
    CreatedTwo(create, allocate);
  }

  /** Slot `n - 1` of `initSyncStructures`' first loop creates its fence and its semaphore. */
  lemma FrameSyncEventsStep(h: Handle, n: nat)
    requires 0 < n
    ensures Created(FrameSyncEvents(h, n))
      == Created(FrameSyncEvents(h, n - 1)) + [h + 2 * (n - 1), h + 2 * (n - 1) + 1]
  {
    var fence := CreateFence(FenceInfo, h + 2 * (n - 1));
    var semaphore := CreateSemaphore(SemaphoreInfo, h + 2 * (n - 1) + 1);
    CreatedAppend(FrameSyncEvents(h, n - 1), [fence, semaphore]);
    CreatedTwo(fence, semaphore);
  }

  /** Slot `n - 1` of `cleanUp`'s first loop destroys that slot's pool, fence and semaphore. */
  lemma FrameDestroyEventsStep(frames: seq<FrameData>, n: nat)
    requires 0 < n <= |frames|
    ensures Destroyed(FrameDestroyEvents(frames, n)) == Destroyed(FrameDestroyEvents(frames, n - 1))
      + [frames[n - 1].commandPool, frames[n - 1].fence, frames[n - 1].swapchainSemaphore]
  {
    var f := frames[n - 1];
    var e1, e2, e3 := DestroyCommandPool(f.commandPool), DestroyFence(f.fence), DestroySemaphore(f.swapchainSemaphore);
    DestroyedAppend(FrameDestroyEvents(frames, n - 1), [e1, e2, e3]);
    assert Destroyed([e1, e2, e3]) == [f.commandPool, f.fence, f.swapchainSemaphore] by {
      assert [e1, e2, e3][..2] == [e1, e2];
      assert [e1, e2][..1] == [e1];
      DestroyedOne(e1);
    }
  }

  /** `initCommand` creates the pools of both slots, in slot order. */
  lemma CommandEventsCreate(h: Handle, queueFamily: u32)
    ensures Created(CommandEvents(h, queueFamily, FRAME_OVERLAP)) == [h, h + 2]
  {
    CommandEventsStep(h, queueFamily, 2);
    CommandEventsStep(h, queueFamily, 1);
    assert CommandEvents(h, queueFamily, 0) == [];
  }

  /** `initSyncStructures`' first loop creates each slot's fence, then its semaphore. */
  lemma FrameSyncEventsCreate(h: Handle)
    ensures Created(FrameSyncEvents(h, FRAME_OVERLAP)) == [h, h + 1, h + 2, h + 3]
  {
    FrameSyncEventsStep(h, 2);
    FrameSyncEventsStep(h, 1);
    assert FrameSyncEvents(h, 0) == [];
  }

  /** A successful `init` creates, in order, the two command pools, the
      fence and semaphore of each slot, then the signal semaphores. */
  lemma InitCreatesObjects(h: Handle, queueFamily: u32, imageCount: nat)
    ensures Created(InitEvents(h, queueFamily, imageCount))
      == [h, h + 2, h + 4, h + 5, h + 6, h + 7] + FreshHandles(h + 4 * FRAME_OVERLAP, imageCount)
  {
    var opening: seq<ApiEvent> := [InitWindow, InitVulkan, InitSwapChain];
    var commands := CommandEvents(h, queueFamily, FRAME_OVERLAP);
    var frameSync := FrameSyncEvents(h + 2 * FRAME_OVERLAP, FRAME_OVERLAP);
    var signals := SignalEvents(h + 4 * FRAME_OVERLAP, imageCount);
    var freshHandles := FreshHandles(h + 4 * FRAME_OVERLAP, imageCount);
    CreatedNone(opening);
    CommandEventsCreate(h, queueFamily);
    FrameSyncEventsCreate(h + 2 * FRAME_OVERLAP);
    SignalEventsCreate(h + 4 * FRAME_OVERLAP, imageCount);
    CreatedAppend(opening, commands);
    CreatedAppend(frameSync, signals);
    CreatedAppend(opening + commands, frameSync + signals);
    assert InitEvents(h, queueFamily, imageCount) == (opening + commands) + (frameSync + signals);
    assert Created(opening + commands) == [h, h + 2] by {
      assert [] + [h, h + 2] == [h, h + 2];
    }
    assert Created(frameSync + signals) == [h + 4, h + 5, h + 6, h + 7] + freshHandles;
    JoinHandles(h, h + 2, h + 4, h + 5, h + 6, h + 7, freshHandles);
  }

  /** Regrouping a list of handles. */
  lemma JoinHandles(a: Handle, b: Handle, c: Handle, d: Handle, e: Handle, f: Handle, rest: seq<Handle>)
    ensures [a, b] + ([c, d, e, f] + rest) == [a, b, c, d, e, f] + rest
  {
  }

  /** `cleanUp` of the slots `init` filled destroys, in order, each slot's
      pool, fence and semaphore, then the first `imageCount` signal
      semaphores. */
  lemma CleanUpDestroysObjects(h: Handle, signals: seq<Handle>, imageCount: nat)
    requires imageCount <= |signals|
    ensures Destroyed(CleanUpEvents(InitFrames(h), signals, imageCount))
      == [h, h + 4, h + 5, h + 2, h + 6, h + 7] + signals[..imageCount]
  {
    var frames := FrameDestroyEvents(InitFrames(h), FRAME_OVERLAP);
    var signalEvents := SignalDestroyEvents(signals, imageCount);
    var closing: seq<ApiEvent> := [DestroySwapChain, DestroyDevice, DestroySurface,
                                   DestroyDebugMessenger, DestroyInstance, DestroyWindow];
    DestroyedNone(closing);
    DestroyedOne(DeviceWaitIdle);
    FrameDestroyEventsDestroy(h);
    SignalDestroyEventsDestroy(signals, imageCount);
    DestroyedAppend([DeviceWaitIdle], frames);
    DestroyedAppend([DeviceWaitIdle] + frames, signalEvents);
    DestroyedAppend([DeviceWaitIdle] + frames + signalEvents, closing);
    assert Destroyed([DeviceWaitIdle] + frames) == [h, h + 4, h + 5, h + 2, h + 6, h + 7] by {
      assert [] + [h, h + 4, h + 5, h + 2, h + 6, h + 7] == [h, h + 4, h + 5, h + 2, h + 6, h + 7];
    }
    assert Destroyed([DeviceWaitIdle] + frames + signalEvents)
      == [h, h + 4, h + 5, h + 2, h + 6, h + 7] + signals[..imageCount];
  }

  /** `cleanUp`'s first loop, over the slots `init` filled, destroys each
      slot's pool, fence and semaphore, slot by slot. */
  lemma FrameDestroyEventsDestroy(h: Handle)
    ensures Destroyed(FrameDestroyEvents(InitFrames(h), FRAME_OVERLAP)) == [h, h + 4, h + 5, h + 2, h + 6, h + 7]
  {
    FrameDestroyEventsStep(InitFrames(h), 2);
    FrameDestroyEventsStep(InitFrames(h), 1);
    assert FrameDestroyEvents(InitFrames(h), 0) == [];
  }

  /** One `init`/`cleanUp` cycle on an engine that has not run before
      releases exactly the pools, fences and semaphores it created, each
      once. */
  lemma InitCleanUpBalanced(h: Handle, queueFamily: u32, imageCount: nat)
    ensures multiset(Created(InitEvents(h, queueFamily, imageCount)))
      == multiset(Destroyed(CleanUpEvents(InitFrames(h), FreshHandles(h + 4 * FRAME_OVERLAP, imageCount), imageCount)))
  {
    var signals := FreshHandles(h + 4 * FRAME_OVERLAP, imageCount);
    InitCreatesObjects(h, queueFamily, imageCount);
    CleanUpDestroysObjects(h, signals, imageCount);
    assert signals[..imageCount] == signals;
    calc {
      multiset([h, h + 4, h + 5, h + 2, h + 6, h + 7] + signals);
      multiset([h, h + 4, h + 5, h + 2, h + 6, h + 7]) + multiset(signals);
      { assert [h, h + 4, h + 5, h + 2, h + 6, h + 7] == [h] + [h + 4, h + 5] + [h + 2] + [h + 6, h + 7];
        assert [h, h + 2, h + 4, h + 5, h + 6, h + 7] == [h] + [h + 2] + [h + 4, h + 5] + [h + 6, h + 7]; }
      multiset([h, h + 2, h + 4, h + 5, h + 6, h + 7]) + multiset(signals);
      multiset([h, h + 2, h + 4, h + 5, h + 6, h + 7] + signals);
    }
  }

  /** As written, `cleanUp` does not empty `mSignalSemaphores`. On a second
      `init`/`cleanUp` cycle the first cycle's `stale` semaphores are still
      at the front of the vector, and `cleanUp` destroys its first
      `imageCount` entries: every stale one among them is destroyed again,
      and the k-th semaphore the second `init` created is destroyed exactly
      when it lies within those first `imageCount` entries. */
  lemma SecondCycleDestroysStaleSemaphores(h: Handle, stale: seq<Handle>, imageCount: nat)
    requires forall k :: 0 <= k < |stale| ==> stale[k] < h
    ensures var renewed := FreshHandles(h + 4 * FRAME_OVERLAP, imageCount);
      var destroyed := Destroyed(CleanUpEvents(InitFrames(h), stale + renewed, imageCount));
      && (forall k :: 0 <= k < |stale| && k < imageCount ==> stale[k] in destroyed)
      && (forall k :: 0 <= k < imageCount ==> (renewed[k] in destroyed <==> |stale| + k < imageCount))
  {
    var renewed := FreshHandles(h + 4 * FRAME_OVERLAP, imageCount);
    var signals := stale + renewed;
    CleanUpDestroysObjects(h, signals, imageCount);
    var destroyed := Destroyed(CleanUpEvents(InitFrames(h), signals, imageCount));
    forall k | 0 <= k < |stale| && k < imageCount
      ensures stale[k] in destroyed
    {
      assert destroyed[6 + k] == signals[k];
    }
    forall k | 0 <= k < imageCount
      ensures renewed[k] in destroyed <==> |stale| + k < imageCount
    {
      if |stale| + k < imageCount {
        assert destroyed[6 + |stale| + k] == renewed[k];
      } else {
        forall j | 0 <= j < |destroyed|
          ensures destroyed[j] != renewed[k]
        {
          if j >= 6 {
            assert destroyed[j] == signals[j - 6];
          }
        }
      }
    }
  }

  /** When the second swapchain has no more images than the first, the
      second `cleanUp` destroys none of the new signal semaphores. */
  lemma SecondCycleLeaksNewSemaphores(h: Handle, stale: seq<Handle>, imageCount: nat)
    requires imageCount <= |stale|
    requires forall k :: 0 <= k < |stale| ==> stale[k] < h
    ensures var renewed := FreshHandles(h + 4 * FRAME_OVERLAP, imageCount);
      forall x :: x in renewed ==> x !in Destroyed(CleanUpEvents(InitFrames(h), stale + renewed, imageCount))
  {
    SecondCycleDestroysStaleSemaphores(h, stale, imageCount);
  }

  /** The number of fences a sequence of events creates. */
  function FenceCount(evs: seq<ApiEvent>): nat {
    if evs == [] then 0 else FenceCount(evs[..|evs| - 1]) + (if evs[|evs| - 1].CreateFence? then 1 else 0)
  }

  /** The number of semaphores a sequence of events creates. */
  function SemaphoreCount(evs: seq<ApiEvent>): nat {
    if evs == [] then 0 else SemaphoreCount(evs[..|evs| - 1]) + (if evs[|evs| - 1].CreateSemaphore? then 1 else 0)
  }

  lemma {:induction false} CountsAppend(a: seq<ApiEvent>, b: seq<ApiEvent>)
    ensures FenceCount(a + b) == FenceCount(a) + FenceCount(b)
    ensures SemaphoreCount(a + b) == SemaphoreCount(a) + SemaphoreCount(b)
    decreases |b|
  {
    if b != [] {
      assert (a + b)[..|a + b| - 1] == a + b[..|b| - 1];
      CountsAppend(a, b[..|b| - 1]);
    } else {
      assert a + b == a;
    }
  }

  lemma {:induction false} FrameSyncCounts(h: Handle, n: nat)
    ensures FenceCount(FrameSyncEvents(h, n)) == n && SemaphoreCount(FrameSyncEvents(h, n)) == n
    ensures forall e :: e in FrameSyncEvents(h, n) && e.CreateFence? ==> CreatedSignalled(e.fenceInfo)
  {
    if n > 0 {
      FrameSyncCounts(h, n - 1);
      var prev := FrameSyncEvents(h, n - 1);
      var fence := CreateFence(FenceInfo, h + 2 * (n - 1));
      var semaphore := CreateSemaphore(SemaphoreInfo, h + 2 * (n - 1) + 1);
      assert FrameSyncEvents(h, n) == prev + [fence, semaphore];
      CountsAppend(prev, [fence, semaphore]);
      assert [fence, semaphore][..1] == [fence];
      assert [fence][..0] == [];
      assert FenceCount([fence]) == 1 && SemaphoreCount([fence]) == 0;
      assert FenceCount([fence, semaphore]) == 1 && SemaphoreCount([fence, semaphore]) == 1;
    }
  }

  lemma {:induction false} SignalCounts(h: Handle, n: nat)
    ensures FenceCount(SignalEvents(h, n)) == 0 && SemaphoreCount(SignalEvents(h, n)) == n
  {
    if n > 0 {
      SignalCounts(h, n - 1);
      var prev := SignalEvents(h, n - 1);
      var e := CreateSemaphore(SemaphoreInfo, h + n - 1);
      assert (prev + [e])[..|prev + [e]| - 1] == prev;
    }
  }

  /** `initSyncStructures` creates two fences, both signalled, and
      `FRAME_OVERLAP` semaphores for the slots plus exactly one signal
      semaphore per swapchain image. */
  lemma SyncStructureCounts(h: Handle, imageCount: nat)
    ensures FenceCount(SyncEvents(h, imageCount)) == FRAME_OVERLAP
    ensures SemaphoreCount(SyncEvents(h, imageCount)) == FRAME_OVERLAP + imageCount
    ensures forall e :: e in SyncEvents(h, imageCount) && e.CreateFence? ==> CreatedSignalled(e.fenceInfo)
  {
    FrameSyncCounts(h, FRAME_OVERLAP);
    SignalCounts(h + 2 * FRAME_OVERLAP, imageCount);
    CountsAppend(FrameSyncEvents(h, FRAME_OVERLAP), SignalEvents(h + 2 * FRAME_OVERLAP, imageCount));
    forall e | e in SignalEvents(h + 2 * FRAME_OVERLAP, imageCount)
      ensures !e.CreateFence?
    {
      SignalEventsOnlySemaphores(h + 2 * FRAME_OVERLAP, imageCount, e);
    }
  }

  lemma {:induction false} SignalEventsOnlySemaphores(h: Handle, n: nat, e: ApiEvent)
    requires e in SignalEvents(h, n)
    ensures e.CreateSemaphore?
  {
    if e !in SignalEvents(h, n - 1) {
      assert e == CreateSemaphore(SemaphoreInfo, h + n - 1);
    } else {
      SignalEventsOnlySemaphores(h, n - 1, e);
    }
  }

  // ---------------------------------------------------------------------
  // The engine

  /** The global `kEngine` pointer to the live engine. */
  class Globals {
    var kEngine: KEngine?

    constructor ()
      ensures kEngine == null
    {
      kEngine := null;
    }
  }

  class KEngine {
    var initialized: bool
    var frameCounter: u32
    var stopRendering: bool
    /** `mWindowExtent`. */
    var windowWidth: u32
    var windowHeight: u32
    /** `mFrameData[FRAME_OVERLAP]`. */
    var frameData: array<FrameData>
    var swapChainImages: seq<Handle>
    var swapChainImageCount: u32
    var queueFamilyIndex: u32
    var signalSemaphores: seq<Handle>
    /** The next fresh handle the driver returns. */
    var nextHandle: Handle
    /** Every call the engine has made, oldest first. */
    var trace: seq<ApiEvent>

    /** The slot array has `FRAME_OVERLAP` entries, and an initialised engine
        has a signal semaphore for every swapchain image it counts. */
    predicate Valid()
      reads this
    {
      && frameData.Length == FRAME_OVERLAP
      && (initialized ==> swapChainImageCount <= |signalSemaphores|)
    }

    /** `KEngine(width, height)`: records the window extent; nothing is created. */
    constructor (width: u32, height: u32)
      ensures Valid() && fresh(frameData)
      ensures windowWidth == width && windowHeight == height
      ensures !initialized && frameCounter == 0 && !stopRendering
      ensures queueFamilyIndex == 0 && swapChainImages == [] && signalSemaphores == []
      ensures trace == []
    {
      initialized := false;
      frameCounter := 0;
      stopRendering := false;
      windowWidth := width;
      windowHeight := height;
      frameData := new FrameData[FRAME_OVERLAP](_ => NullFrame);
      swapChainImages := [];
      swapChainImageCount := 0;
      queueFamilyIndex := 0;
      signalSemaphores := [];
      nextHandle := 1;
      trace := [];
    }

    /** `currentFrame`. */
    function CurrentFrame(): FrameData
      requires Valid()
      reads this, frameData
    {
      frameData[FrameSlot(frameCounter)]
    }

    /** `init`: a live engine (the global pointer is set) or an engine that
        is already initialised fails an assertion, which stops `init` before
        it has any effect. Otherwise it runs the window, Vulkan and
        swapchain set-up, which yield the swapchain `images` and the graphics
        `queueFamily`, then `initCommand` and `initSyncStructures`, and
        finally publishes itself through the global pointer. */
    method Init(g: Globals, images: seq<Handle>, queueFamily: u32) returns (ok: bool)
      requires Valid()
      modifies this`initialized, this`swapChainImages, this`swapChainImageCount,
               this`queueFamilyIndex, this`signalSemaphores, this`nextHandle, this`trace,
               frameData, g`kEngine
      ensures Valid()
      ensures ok == (old(g.kEngine) == null && !old(initialized))
      ensures !ok ==> unchanged(this) && unchanged(frameData) && unchanged(g)
      ensures ok ==> initialized && g.kEngine == this
      ensures ok ==> swapChainImages == images && swapChainImageCount == Narrow(|images|)
      ensures ok ==> queueFamilyIndex == queueFamily
      ensures ok ==> frameData[..] == InitFrames(old(nextHandle))
      ensures ok ==>
        signalSemaphores == old(signalSemaphores) + FreshHandles(old(nextHandle) + 4 * FRAME_OVERLAP, Narrow(|images|))
      ensures ok ==> nextHandle == old(nextHandle) + 4 * FRAME_OVERLAP + Narrow(|images|)
      ensures ok ==> trace == old(trace) + InitEvents(old(nextHandle), queueFamily, Narrow(|images|))
    {
      if g.kEngine != null || initialized {
        return false;
      }
      InitObjects(images, queueFamily);
      g.kEngine := this;
      initialized := true;
      ok := true;
    }

    /** The body of `init` past its assertion: window, Vulkan and swapchain
        set-up, then `initCommand` and `initSyncStructures`. */
    method InitObjects(images: seq<Handle>, queueFamily: u32)
      requires Valid() && !initialized
      modifies this`swapChainImages, this`swapChainImageCount, this`queueFamilyIndex,
               this`signalSemaphores, this`nextHandle, this`trace, frameData
      ensures Valid()
      ensures swapChainImages == images && swapChainImageCount == Narrow(|images|)
      ensures queueFamilyIndex == queueFamily
      ensures frameData[..] == InitFrames(old(nextHandle))
      ensures signalSemaphores == old(signalSemaphores) + FreshHandles(old(nextHandle) + 4 * FRAME_OVERLAP, Narrow(|images|))
      ensures nextHandle == old(nextHandle) + 4 * FRAME_OVERLAP + Narrow(|images|)
      ensures trace == old(trace) + InitEvents(old(nextHandle), queueFamily, Narrow(|images|))
    {
      ghost var opening := [InitWindow, InitVulkan, InitSwapChain];
      trace := trace + [InitWindow];
      trace := trace + [InitVulkan];
      queueFamilyIndex := queueFamily;
      trace := trace + [InitSwapChain];
      assert trace == old(trace) + opening;
      swapChainImages := images;
      swapChainImageCount := Narrow(|images|);
      InitCommand();
      ghost var commands := CommandEvents(old(nextHandle), queueFamily, FRAME_OVERLAP);
      AppendAssociative(old(trace), opening, commands);
      InitSyncStructures();
      AppendAssociative(old(trace), opening + commands,
                        SyncEvents(old(nextHandle) + 2 * FRAME_OVERLAP, Narrow(|images|)));
      forall i | 0 <= i < FRAME_OVERLAP
        ensures frameData[i] == InitFrames(old(nextHandle))[i]
      {
      }
    }

    /** `initCommand`: for each slot, a command pool on the graphics queue
        family whose buffers can be reset, and one primary command buffer
        allocated from it. */
    method InitCommand()
      requires Valid()
      modifies this`nextHandle, this`trace, frameData
      ensures nextHandle == old(nextHandle) + 2 * FRAME_OVERLAP
      ensures trace == old(trace) + CommandEvents(old(nextHandle), queueFamilyIndex, FRAME_OVERLAP)
      ensures forall i :: 0 <= i < FRAME_OVERLAP ==>
        frameData[i] == old(frameData[i]).(commandPool := old(nextHandle) + 2 * i,
                                           commandBuffer := old(nextHandle) + 2 * i + 1)
    {
      var h := nextHandle;
      var poolInfo := CreateCommandPoolInfo(queueFamilyIndex, COMMAND_POOL_CREATE_RESET_COMMAND_BUFFER_BIT);
      for i := 0 to FRAME_OVERLAP
        invariant nextHandle == h + 2 * i
        invariant trace == old(trace) + CommandEvents(h, queueFamilyIndex, i)
        invariant forall j :: 0 <= j < i ==>
          frameData[j] == old(frameData[j]).(commandPool := h + 2 * j, commandBuffer := h + 2 * j + 1)
        invariant forall j :: i <= j < FRAME_OVERLAP ==> frameData[j] == old(frameData[j])
      {
        var pool := nextHandle;
        nextHandle := nextHandle + 1;
        trace := trace + [CreateCommandPool(poolInfo, pool)];
        frameData[i] := frameData[i].(commandPool := pool);
        var commandInfo := CreateCommandBufferInfo(frameData[i].commandPool);
        var commandBuffer := nextHandle;
        nextHandle := nextHandle + 1;
        trace := trace + [AllocateCommandBuffer(commandInfo, commandBuffer)];
        frameData[i] := frameData[i].(commandBuffer := commandBuffer);
      }
    }

    /** `initSyncStructures`: for each slot a signalled fence and a
        semaphore, then one semaphore per swapchain image, appended to
        `mSignalSemaphores`. */
    method InitSyncStructures()
      requires Valid()
      modifies this`nextHandle, this`trace, this`signalSemaphores, frameData
      ensures nextHandle == old(nextHandle) + 2 * FRAME_OVERLAP + swapChainImageCount
      ensures trace == old(trace) + SyncEvents(old(nextHandle), swapChainImageCount)
      ensures signalSemaphores == old(signalSemaphores)
        + FreshHandles(old(nextHandle) + 2 * FRAME_OVERLAP, swapChainImageCount)
      ensures forall i :: 0 <= i < FRAME_OVERLAP ==>
        frameData[i] == old(frameData[i]).(fence := old(nextHandle) + 2 * i,
                                           swapchainSemaphore := old(nextHandle) + 2 * i + 1)
    {
      var h := nextHandle;
      var semaphoreInfo := CreateSemaphoreInfo(0);
      var fenceInfo := CreateFenceInfo(FENCE_CREATE_SIGNALED_BIT);
      for i := 0 to FRAME_OVERLAP
        invariant nextHandle == h + 2 * i
        invariant trace == old(trace) + FrameSyncEvents(h, i)
        invariant signalSemaphores == old(signalSemaphores)
        invariant forall j :: 0 <= j < i ==>
          frameData[j] == old(frameData[j]).(fence := h + 2 * j, swapchainSemaphore := h + 2 * j + 1)
        invariant forall j :: i <= j < FRAME_OVERLAP ==> frameData[j] == old(frameData[j])
      {
        var fence := nextHandle;
        nextHandle := nextHandle + 1;
        trace := trace + [CreateFence(fenceInfo, fence)];
        frameData[i] := frameData[i].(fence := fence);
        var semaphore := nextHandle;
        nextHandle := nextHandle + 1;
        trace := trace + [CreateSemaphore(semaphoreInfo, semaphore)];
        frameData[i] := frameData[i].(swapchainSemaphore := semaphore);
      }
      var s := nextHandle;
      ghost var slots := frameData[..];
      for i := 0 to swapChainImageCount
        invariant frameData[..] == slots
        invariant nextHandle == s + i
        invariant trace == old(trace) + FrameSyncEvents(h, FRAME_OVERLAP) + SignalEvents(s, i)
        invariant signalSemaphores == old(signalSemaphores) + FreshHandles(s, i)
      {
        var signalSemaphore := nextHandle;
        nextHandle := nextHandle + 1;
        trace := trace + [CreateSemaphore(semaphoreInfo, signalSemaphore)];
        signalSemaphores := signalSemaphores + [signalSemaphore];
      }
    }

    /** `cleanUp`: on an initialised engine, waits for the device, destroys
        each slot's pool, fence and semaphore, then the first
        `mSwapChainImageCount` signal semaphores, then the swapchain, device,
        surface, messenger, instance and window, and clears the global
        pointer and the flag. `mSignalSemaphores` itself is left as it is.
        On an engine that is not initialised it does nothing. */
    method CleanUp(g: Globals)
      requires Valid()
      modifies this`trace, this`initialized, g`kEngine
      ensures Valid() && !initialized
      ensures !old(initialized) ==> trace == old(trace) && g.kEngine == old(g.kEngine)
      ensures old(initialized) ==> g.kEngine == null
      ensures old(initialized) ==>
        trace == old(trace) + CleanUpEvents(frameData[..], signalSemaphores, swapChainImageCount)
    {
      if initialized {
        trace := trace + [DeviceWaitIdle];
        for i := 0 to FRAME_OVERLAP
          invariant trace == old(trace) + [DeviceWaitIdle] + FrameDestroyEvents(frameData[..], i)
        {
          trace := trace + [DestroyCommandPool(frameData[i].commandPool)];
          trace := trace + [DestroyFence(frameData[i].fence)];
          trace := trace + [DestroySemaphore(frameData[i].swapchainSemaphore)];
        }
        for i := 0 to swapChainImageCount
          invariant trace == old(trace) + [DeviceWaitIdle] + FrameDestroyEvents(frameData[..], FRAME_OVERLAP)
            + SignalDestroyEvents(signalSemaphores, i)
        {
          trace := trace + [DestroySemaphore(signalSemaphores[i])];
        }
        trace := trace + [DestroySwapChain, DestroyDevice, DestroySurface,
                          DestroyDebugMessenger, DestroyInstance, DestroyWindow];
        g.kEngine := null;
        initialized := false;
      }
    }

    /** `draw`: on the current frame slot (one `currentFrame()` throughout,
        as the counter only moves at the end), waits on and resets the slot's fence, acquires image
        `imageIndex` (chosen by the presentation engine) with the slot's
        semaphore, records a clear of that image between two layout
        transitions, submits it and presents the image, then advances the
        frame counter. */
    method Draw(imageIndex: nat)
      requires Valid()
      requires imageIndex < |swapChainImages| && imageIndex < |signalSemaphores|
      modifies this`trace, this`frameCounter
      ensures frameCounter == NextCounter(old(frameCounter))
      ensures trace == old(trace) + DrawEvents(frameData[FrameSlot(old(frameCounter))],
        swapChainImages[imageIndex], imageIndex, signalSemaphores[imageIndex])
    {
      var frame := CurrentFrame();
      ghost var start := trace;
      trace := trace + [WaitForFence(frame.fence)];
      trace := trace + [ResetFence(frame.fence)];
      trace := trace + [AcquireNextImage(frame.swapchainSemaphore, imageIndex)];
      assert trace == start + FrameStartEvents(frame, imageIndex);
      ghost var started := trace;
      var cmd := frame.commandBuffer;
      trace := trace + [ResetCommandBuffer(cmd)];
      var beginInfo := CreateCommandBufferBeginInfo(COMMAND_BUFFER_USAGE_ONE_TIME_SUBMIT_BIT);
      trace := trace + [BeginCommandBuffer(cmd, beginInfo)];
      var image := swapChainImages[imageIndex];
      ghost var begun := trace;
      trace := trace + [TransitionImage(cmd, image, Undefined, General)];
      var clearRange := ImageSubresourceRangeFor(IMAGE_ASPECT_COLOR_BIT);
      trace := trace + [ClearColorImage(cmd, image, General, clearRange)];
      trace := trace + [TransitionImage(cmd, image, General, PresentSrc)];
      assert trace == begun + ClearEvents(cmd, image);
      trace := trace + [EndCommandBuffer(cmd)];
      assert trace == started + RecordEvents(cmd, image);
      ghost var recorded := trace;
      var commandBufferInfo := CreateCommandBufferSubmitInfo(cmd);
      var waitSemaphoreInfo := CreateSemaphoreSubmitInfo(frame.swapchainSemaphore,
                                                         PIPELINE_STAGE_2_COLOR_ATTACHMENT_OUTPUT_BIT);
      var signalSemaphoreInfo := CreateSemaphoreSubmitInfo(signalSemaphores[imageIndex],
                                                           PIPELINE_STAGE_2_COLOR_ATTACHMENT_OUTPUT_BIT);
      var submitInfo := CreateSubmitInfo(Ref(commandBufferInfo), Ref(signalSemaphoreInfo), Ref(waitSemaphoreInfo));
      assert submitInfo == DrawSubmitInfo(frame, signalSemaphores[imageIndex]);
      trace := trace + [QueueSubmit(submitInfo, frame.fence)];
      trace := trace + [QueuePresent(signalSemaphores[imageIndex], imageIndex)];
      assert trace == recorded + SubmitEvents(frame, signalSemaphores[imageIndex], imageIndex);
      assert trace == start + DrawEvents(frame, image, imageIndex, signalSemaphores[imageIndex]);
      frameCounter := NextCounter(frameCounter);
    }

    /** `run`'s inner loop: drains one batch of window events. QUIT sets
        `quit`; MINIMIZED sets and RESTORED clears `mStopRendering`. */
    method PollEvents(events: seq<WindowEvent>, quit: bool) returns (quit': bool)
      modifies this`stopRendering
      ensures quit' == (quit || Quit in events)
      ensures stopRendering == StopAfter(events, old(stopRendering))
    {
      quit' := quit;
      var i := 0;
      while i < |events|
        invariant 0 <= i <= |events|
        invariant quit' == (quit || Quit in events[..i])
        invariant stopRendering == StopAfter(events[..i], old(stopRendering))
      {
        var e := events[i];
        if e == Quit {
          quit' := true;
        }
        if e == Minimized {
          stopRendering := true;
        }
        if e == Restored {
          stopRendering := false;
        }
        assert events[..i + 1][..i] == events[..i];
        assert events[..i + 1] == events[..i] + [e];
        i := i + 1;
      }
      assert events[..i] == events;
    }

    /** The rendering half of one iteration of `run`: a 100 ms sleep while
        rendering is stopped, otherwise one `draw` of image `imageIndex`. */
    method RenderStep(imageIndex: nat) returns (ghost it: Iteration)
      requires Valid()
      requires imageIndex < |swapChainImages| && imageIndex < |signalSemaphores|
      modifies this`trace, this`frameCounter
      ensures it == (if stopRendering then Slept else Drew(old(frameCounter), imageIndex))
      ensures frameCounter == (if stopRendering then old(frameCounter) else NextCounter(old(frameCounter)))
      ensures trace == old(trace) + IterationCalls(it, frameData[..], swapChainImages, signalSemaphores)
    {
      if stopRendering {
        trace := trace + [Sleep(100)];
        it := Slept;
      } else {
        Draw(imageIndex);
        it := Drew(old(frameCounter), imageIndex);
      }
    }

    /** One iteration of `run`: polls `batches[i]`, then sleeps or draws. */
    method RunStep(batches: seq<seq<WindowEvent>>, acquired: seq<nat>, ghost slots: seq<FrameData>,
                   ghost stop: bool, ghost counter: u32, i: nat, ghost start: seq<ApiEvent>,
                   ghost made: seq<ApiEvent>)
      returns (quit: bool, next: nat, ghost made': seq<ApiEvent>)
      requires Valid() && frameData[..] == slots && trace == start + made
      requires RunSoFar(batches, acquired, slots, swapChainImages, signalSemaphores, stop, counter, i,
                        false, stopRendering, frameCounter, made)
      requires i < |batches| && acquired[i] < |swapChainImages| && acquired[i] < |signalSemaphores|
      modifies this`trace, this`frameCounter, this`stopRendering
      ensures Valid() && trace == start + made' && next == i + 1
      ensures RunSoFar(batches, acquired, slots, swapChainImages, signalSemaphores, stop, counter, next,
                       quit, stopRendering, frameCounter, made')
    {
      next := i + 1;
      ghost var stop', counter' := stopRendering, frameCounter;
      quit := PollEvents(batches[i], false);
      ghost var it := RenderStep(acquired[i]);
      made' := made + IterationCalls(it, slots, swapChainImages, signalSemaphores);
      AppendAssociative(start, made, IterationCalls(it, slots, swapChainImages, signalSemaphores));
      RunLoopStep(batches, acquired, slots, swapChainImages, signalSemaphores, stop, counter, i,
                  stop', counter', made, it, next, quit, stopRendering, frameCounter, made');
    }

    /** `run`'s loop: polls one batch of window events per iteration
        (`batches`), then sleeps 100 ms while rendering is stopped and draws
        otherwise, the presentation engine handing out image `acquired[k]`
        in iteration `k`; it leaves after the batch that holds QUIT. The
        model's input is finite, so the loop also ends when the batches run
        out. */
    method RunUntilQuit(batches: seq<seq<WindowEvent>>, acquired: seq<nat>)
      returns (quit: bool, i: nat, ghost made: seq<ApiEvent>)
      requires Valid()
      requires |acquired| == |batches| && ImagesAcquirable(acquired, swapChainImages, signalSemaphores)
      modifies this`trace, this`frameCounter, this`stopRendering
      ensures quit || i == |batches|
      ensures trace == old(trace) + made
      ensures RunSoFar(batches, acquired, frameData[..], swapChainImages, signalSemaphores, old(stopRendering),
                       old(frameCounter), i, quit, stopRendering, frameCounter, made)
    {
      ghost var slots := frameData[..];
      ghost var stop0, counter0, trace0 := stopRendering, frameCounter, trace;
      made := [];
      quit := false;
      i := 0;
      RunStarts(batches, acquired, slots, swapChainImages, signalSemaphores, stop0, counter0);
      while !quit && i < |batches|
        invariant Valid() && trace == trace0 + made
        invariant RunSoFar(batches, acquired, slots, swapChainImages, signalSemaphores, stop0,
                           counter0, i, quit, stopRendering, frameCounter, made)
      {
        quit, i, made := RunStep(batches, acquired, slots, stop0, counter0, i, trace0, made);
      }
    }

    /** `run`: the loop above, from the engine's current flag and counter. */
    method Run(batches: seq<seq<WindowEvent>>, acquired: seq<nat>)
      requires Valid()
      requires |acquired| == |batches| && ImagesAcquirable(acquired, swapChainImages, signalSemaphores)
      modifies this`trace, this`frameCounter, this`stopRendering
      ensures var r := RunLoop(batches, acquired, old(stopRendering), old(frameCounter), |batches|);
        && stopRendering == r.stop && frameCounter == r.counter
        && trace == old(trace) + Calls(r.iterations, frameData[..], swapChainImages, signalSemaphores)
    {
      var quit, i, made := RunUntilQuit(batches, acquired);
      RunFinished(batches, acquired, frameData[..], swapChainImages, signalSemaphores, old(stopRendering),
                  old(frameCounter), i, quit, stopRendering, frameCounter, made);
    }
  }

  /** `cleanUp` twice in a row: the second call does nothing. */
  method CleanUpTwice(e: KEngine, g: Globals)
    requires e.Valid()
    modifies e`trace, e`initialized, g`kEngine
    ensures !e.initialized
    ensures !old(e.initialized) ==> e.trace == old(e.trace) && g.kEngine == old(g.kEngine)
    ensures old(e.initialized) ==> g.kEngine == null
    ensures old(e.initialized) ==>
      e.trace == old(e.trace) + CleanUpEvents(e.frameData[..], e.signalSemaphores, e.swapChainImageCount)
  {
    e.CleanUp(g);
    ghost var afterFirst := e.trace;
    e.CleanUp(g);
    assert e.trace == afterFirst;
  }

  /** A first `init`/`cleanUp` cycle: `cleanUp` destroys every pool, fence
      and semaphore `init` created, each once, and nothing else. */
  method LifeCycle(e: KEngine, g: Globals, images: seq<Handle>, queueFamily: u32)
    returns (ghost initEnd: nat)
    requires e.Valid() && g.kEngine == null && !e.initialized && e.signalSemaphores == []
    modifies e`initialized, e`swapChainImages, e`swapChainImageCount, e`queueFamilyIndex,
             e`signalSemaphores, e`nextHandle, e`trace, e.frameData, g`kEngine
    ensures !e.initialized && g.kEngine == null
    ensures |old(e.trace)| <= initEnd <= |e.trace|
    ensures multiset(Created(e.trace[|old(e.trace)|..initEnd])) == multiset(Destroyed(e.trace[initEnd..]))
  {
    ghost var h := e.nextHandle;
    ghost var start := e.trace;
    var ok := e.Init(g, images, queueFamily);
    initEnd := |e.trace|;
    e.CleanUp(g);
    ghost var n := Narrow(|images|);
    assert e.signalSemaphores == FreshHandles(h + 4 * FRAME_OVERLAP, n);
    assert e.trace[|start|..initEnd] == InitEvents(h, queueFamily, n);
    assert e.trace[initEnd..] == CleanUpEvents(InitFrames(h), FreshHandles(h + 4 * FRAME_OVERLAP, n), n);
    InitCleanUpBalanced(h, queueFamily, n);
  }
}
