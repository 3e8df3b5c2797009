/** The application object: frame-in-flight bookkeeping, synchronisation objects and
    teardown (src/app.rs, src/renderer/synchronization.rs).

    Every driver call the application makes is appended to `trace`, with whether it
    succeeded; the driver's replies are arguments. The GPU itself is not modelled: the
    ghost fence state records which fences are signalled and which belong to a submission
    the host has not yet seen complete, and `FenceStep` states the fence rules of the
    Vulkan specification (section Fences of chapter Synchronization and Cache Control)
    that the calls must respect.
 */
module Application {
  import opened Vk

  /** `MAX_FRAMES_IN_FLIGHT` (src/lib.rs). */
  const MAX_FRAMES_IN_FLIGHT: nat := 2

  datatype ObjectKind =
    | SEMAPHORE | FENCE | COMMAND_POOL | FRAMEBUFFER | PIPELINE | RENDER_PASS
    | PIPELINE_LAYOUT | IMAGE_VIEW | SWAPCHAIN | DEVICE | SURFACE | DEBUG_MESSENGER | INSTANCE

  /** Objects owned by the logical device, which must go before it. */
  predicate DeviceLevel(kind: ObjectKind) {
    kind != DEVICE && kind != SURFACE && kind != DEBUG_MESSENGER && kind != INSTANCE
  }

  /** A driver call, with the arguments the bookkeeping is about. */
  datatype Call =
    | CreateSemaphore
    | CreateFence(signaled: bool)
    | WaitForFence(fence: Handle)
    | AcquireNextImage(swapchain: Handle, semaphore: Handle)
    | ResetFence(fence: Handle)
    | QueueSubmit(queue: Handle, waitSemaphore: Handle, waitStage: PipelineStage,
                  commandBuffer: Handle, signalSemaphore: Handle, fence: Handle)
    | QueuePresent(queue: Handle, waitSemaphore: Handle, swapchain: Handle, imageIndex: nat)
    | DeviceWaitIdle
    | Destroy(kind: ObjectKind, handle: Handle)

  /** One call as it happened: the call and whether the driver reported success. */
  datatype Event = Event(call: Call, ok: bool)

  /** The handles of `AppData` the bookkeeping reads or writes; `None` in
      `imagesInFlight` is the null fence. */
  datatype AppData = AppData(
    surface: Handle,
    physicalDevice: Handle,
    graphicsQueue: Handle,
    presentQueue: Handle,
    swapchain: Handle,
    swapchainImages: seq<Handle>,
    swapchainImageViews: seq<Handle>,
    swapchainFormat: Format,
    swapchainExtent: Extent2D,
    renderPass: Handle,
    pipelineLayout: Handle,
    pipeline: Handle,
    framebuffers: seq<Handle>,
    commandPool: Handle,
    commandBuffers: seq<Handle>,
    imageAvailableSemaphores: seq<Handle>,
    renderFinishedSemaphores: seq<Handle>,
    inFlightFences: seq<Handle>,
    imagesInFlight: seq<Option<Handle>>,
    messenger: Handle)

  function SetOf(hs: seq<Handle>): set<Handle> {
    set h | h in hs
  }

  /** The shape the frame loop relies on: one semaphore pair and one fence per frame slot,
      one command buffer and one images-in-flight entry per swapchain image, and every
      images-in-flight entry null or one of the frame fences. */
  predicate SyncReady(data: AppData) {
    && |data.imageAvailableSemaphores| == MAX_FRAMES_IN_FLIGHT
    && |data.renderFinishedSemaphores| == MAX_FRAMES_IN_FLIGHT
    && |data.inFlightFences| == MAX_FRAMES_IN_FLIGHT
    && |data.imagesInFlight| == |data.swapchainImages|
    && |data.commandBuffers| == |data.swapchainImages|
    && forall i :: 0 <= i < |data.imagesInFlight| && data.imagesInFlight[i].Some? ==>
         data.imagesInFlight[i].value in data.inFlightFences
  }

  // ---------------------------------------------------------------------------------
  // Fence rules

  /** Host-visible fence state: signalled fences, and fences of submissions not yet seen
      complete. */
  datatype FenceState = FenceState(signalled: set<Handle>, pending: set<Handle>)

  /** The effect of one call on the fences, or `None` when the call breaks a fence rule:
      waiting on a fence that is neither signalled nor pending never returns, a fence is
      reset or destroyed only when no pending submission uses it, and a submission's fence
      must be unsignalled and unused. A call that fails changes nothing. */
  function FenceStep(s: FenceState, e: Event): Option<FenceState> {
    match e.call
    case WaitForFence(f) =>
      if f !in s.signalled && f !in s.pending then None
      else if e.ok then Some(FenceState(s.signalled + {f}, s.pending - {f}))
      else Some(s)
    case ResetFence(f) =>
      if f in s.pending then None
      else if e.ok then Some(FenceState(s.signalled - {f}, s.pending))
      else Some(s)
    case QueueSubmit(_, _, _, _, _, f) =>
      if f in s.pending || f in s.signalled then None
      else if e.ok then Some(FenceState(s.signalled, s.pending + {f}))
      else Some(s)
    case DeviceWaitIdle =>
      if e.ok then Some(FenceState(s.signalled + s.pending, {})) else Some(s)
    case Destroy(kind, h) =>
      if kind != FENCE then Some(s)
      else if h in s.pending then None
      else Some(FenceState(s.signalled - {h}, s.pending))
    case _ => Some(s)
  }

  /** The fence state after a sequence of calls, or `None` if one of them breaks a rule. */
  function FenceRun(s: FenceState, events: seq<Event>): Option<FenceState> {
    if events == [] then Some(s)
    else
      match FenceRun(s, events[..|events| - 1])
      case None => None
      case Some(t) => FenceStep(t, events[|events| - 1])
  }

  lemma FenceRunSnoc(s: FenceState, events: seq<Event>, e: Event)
    ensures FenceRun(s, events + [e]) ==
      match FenceRun(s, events)
      case None => None
      case Some(t) => FenceStep(t, e)
  {
    assert (events + [e])[..|events|] == events;
  }

  /** Every frame fence is signalled or pending, so waiting on it returns. */
  predicate Live(data: AppData, s: FenceState) {
    forall f :: f in data.inFlightFences ==> f in s.signalled || f in s.pending
  }

  // ---------------------------------------------------------------------------------
  // Rendering a frame

  /** What the driver answers to each call `render` may make. */
  datatype FrameReplies = FrameReplies(
    waitFence: Result<(), VkError>,
    acquire: Result<nat, VkError>,
    waitImageFence: Result<(), VkError>,
    resetFence: Result<(), VkError>,
    submit: Result<(), VkError>,
    present: Result<(), VkError>)

  /** The driver only hands out indices of existing swapchain images. */
  predicate AcquireInRange(data: AppData, replies: FrameReplies) {
    replies.acquire.Ok? ==> replies.acquire.value < |data.swapchainImages|
  }

  /** The acquired image had a fence recorded and waiting on it failed. */
  predicate ImageWaitFailed(data: AppData, replies: FrameReplies)
    requires SyncReady(data) && AcquireInRange(data, replies) && replies.acquire.Ok?
  {
    data.imagesInFlight[replies.acquire.value].Some? && replies.waitImageFence.Err?
  }

  /** Rendering got past the image-fence wait, which is where `images_in_flight` is
      written. */
  predicate ReachesImageUpdate(data: AppData, replies: FrameReplies)
    requires SyncReady(data) && AcquireInRange(data, replies)
  {
    replies.waitFence.Ok? && replies.acquire.Ok? && !ImageWaitFailed(data, replies)
  }

  /** The first calls of `render`: wait on the frame's fence, acquire an image, and wait
      on the image's recorded fence if it has one, stopping after the first that fails. */
  function AcquireEvents(data: AppData, frame: nat, replies: FrameReplies): seq<Event>
    requires SyncReady(data) && frame < MAX_FRAMES_IN_FLIGHT && AcquireInRange(data, replies)
  {
    var waited := [Event(WaitForFence(data.inFlightFences[frame]), replies.waitFence.Ok?)];
    if replies.waitFence.Err? then waited
    else
      var acquired := waited + [Event(AcquireNextImage(data.swapchain, data.imageAvailableSemaphores[frame]),
                                      replies.acquire.Ok?)];
      if replies.acquire.Err? then acquired
      else
        var index := replies.acquire.value;
        if data.imagesInFlight[index].Some?
        then acquired + [Event(WaitForFence(data.imagesInFlight[index].value), replies.waitImageFence.Ok?)]
        else acquired
  }

  /** The last calls of `render`: reset the frame's fence, submit the image's command
      buffer with it, and present the image, stopping after the first that fails. */
  function SubmitEvents(data: AppData, frame: nat, index: nat, replies: FrameReplies): seq<Event>
    requires SyncReady(data) && frame < MAX_FRAMES_IN_FLIGHT && index < |data.commandBuffers|
  {
    var fence := data.inFlightFences[frame];
    var reset := [Event(ResetFence(fence), replies.resetFence.Ok?)];
    if replies.resetFence.Err? then reset
    else
      var submitted := reset + [Event(QueueSubmit(data.graphicsQueue,
                                                  data.imageAvailableSemaphores[frame],
                                                  COLOR_ATTACHMENT_OUTPUT,
                                                  data.commandBuffers[index],
                                                  data.renderFinishedSemaphores[frame],
                                                  fence), replies.submit.Ok?)];
      if replies.submit.Err? then submitted
      else submitted + [Event(QueuePresent(data.presentQueue, data.renderFinishedSemaphores[frame],
                                           data.swapchain, index), replies.present.Ok?)]
  }

  /** The calls of one `render`, in order, stopping after the first that fails. */
  function RenderEvents(data: AppData, frame: nat, replies: FrameReplies): seq<Event>
    requires SyncReady(data) && frame < MAX_FRAMES_IN_FLIGHT && AcquireInRange(data, replies)
  {
    AcquireEvents(data, frame, replies)
    + if ReachesImageUpdate(data, replies)
      then SubmitEvents(data, frame, replies.acquire.value, replies)
      else []
  }

  /** What the last calls of `render` return: the first error, or success. */
  function SubmitResult(replies: FrameReplies): Result<(), VkError> {
    if replies.resetFence.Err? then Err(replies.resetFence.error)
    else if replies.submit.Err? then Err(replies.submit.error)
    else if replies.present.Err? then Err(replies.present.error)
    else Ok(())
  }

  /** What `render` returns: the first error, or success. */
  function RenderResult(data: AppData, replies: FrameReplies): Result<(), VkError>
    requires SyncReady(data) && AcquireInRange(data, replies)
  {
    if replies.waitFence.Err? then Err(replies.waitFence.error)
    else if replies.acquire.Err? then Err(replies.acquire.error)
    else if ImageWaitFailed(data, replies) then Err(replies.waitImageFence.error)
    else SubmitResult(replies)
  }

  /** `images_in_flight` after `render`: the acquired image's entry becomes the frame's
      fence once the waits are past, whatever happens afterwards. */
  function ImagesAfterRender(data: AppData, frame: nat, replies: FrameReplies): seq<Option<Handle>>
    requires SyncReady(data) && frame < MAX_FRAMES_IN_FLIGHT && AcquireInRange(data, replies)
  {
    if ReachesImageUpdate(data, replies)
    then data.imagesInFlight[replies.acquire.value := Some(data.inFlightFences[frame])]
    else data.imagesInFlight
  }

  /** The frame's fence was reset and then the submission failed: the fence is now
      unsignalled with nothing pending to signal it. */
  predicate StrandsFence(data: AppData, replies: FrameReplies)
    requires SyncReady(data) && AcquireInRange(data, replies)
  {
    ReachesImageUpdate(data, replies) && replies.resetFence.Ok? && replies.submit.Err?
  }

  /** A successful `render` waits on the frame's fence, acquires with the frame's
      image-available semaphore, waits on the image's recorded fence when there is one,
      resets the frame's fence right before submitting the acquired image's command
      buffer with it (waiting on image-available at the colour-output stage and signalling
      render-finished), and presents the same image waiting on that render-finished
      semaphore. */
  lemma RenderProtocol(data: AppData, frame: nat, replies: FrameReplies)
    requires SyncReady(data) && frame < MAX_FRAMES_IN_FLIGHT && AcquireInRange(data, replies)
    requires RenderResult(data, replies).Ok?
    ensures var e := RenderEvents(data, frame, replies);
      var fence := data.inFlightFences[frame];
      var index := replies.acquire.value;
      && |e| == (if data.imagesInFlight[index].Some? then 6 else 5)
      && e[0].call == WaitForFence(fence)
      && e[1].call == AcquireNextImage(data.swapchain, data.imageAvailableSemaphores[frame])
      && (data.imagesInFlight[index].Some? ==> e[2].call == WaitForFence(data.imagesInFlight[index].value))
      && e[|e| - 3].call == ResetFence(fence)
      && e[|e| - 2].call == QueueSubmit(data.graphicsQueue, data.imageAvailableSemaphores[frame],
                                        COLOR_ATTACHMENT_OUTPUT, data.commandBuffers[index],
                                        data.renderFinishedSemaphores[frame], fence)
      && e[|e| - 1].call == QueuePresent(data.presentQueue, data.renderFinishedSemaphores[frame],
                                         data.swapchain, index)
      && forall k :: 0 <= k < |e| ==> e[k].ok
  {
  }

  /** Whatever the driver answers, `render` keeps the fence rules, adds no pending fence
      other than the frame's own, and leaves every frame fence signalled or pending unless
      the submission failed after the reset. */
  lemma RenderKeepsFenceRules(data: AppData, frame: nat, s: FenceState, replies: FrameReplies)
    requires SyncReady(data) && frame < MAX_FRAMES_IN_FLIGHT && AcquireInRange(data, replies)
    requires Live(data, s)
    ensures var r := FenceRun(s, RenderEvents(data, frame, replies));
      && r.Some?
      && r.value.pending <= s.pending + {data.inFlightFences[frame]}
      && (!StrandsFence(data, replies) ==> Live(data, r.value))
  {
    var t := AcquireKeepsFenceRules(data, frame, s, replies);
    FenceRunAppend(s, AcquireEvents(data, frame, replies),
                   if ReachesImageUpdate(data, replies)
                   then SubmitEvents(data, frame, replies.acquire.value, replies)
                   else []);
    if ReachesImageUpdate(data, replies) {
      SubmitKeepsFenceRules(data, frame, replies.acquire.value, t, replies);
    }
  }

  /** The waits and the acquire keep the rules and leave every frame fence signalled or
      pending; once both waits succeed the frame's fence is not pending. */
  lemma AcquireKeepsFenceRules(data: AppData, frame: nat, s: FenceState, replies: FrameReplies)
    returns (t: FenceState)
    requires SyncReady(data) && frame < MAX_FRAMES_IN_FLIGHT && AcquireInRange(data, replies)
    requires Live(data, s)
    ensures FenceRun(s, AcquireEvents(data, frame, replies)) == Some(t)
    ensures Live(data, t) && t.pending <= s.pending
    ensures ReachesImageUpdate(data, replies) ==> data.inFlightFences[frame] !in t.pending
  {
    var fence := data.inFlightFences[frame];
    var e0 := Event(WaitForFence(fence), replies.waitFence.Ok?);
    Extend(s, [], e0, s);
    assert [] + [e0] == [e0];
    t := FenceStep(s, e0).value;
    if replies.waitFence.Err? {
      return;
    }
    var e1 := Event(AcquireNextImage(data.swapchain, data.imageAvailableSemaphores[frame]), replies.acquire.Ok?);
    Extend(s, [e0], e1, t);
    if replies.acquire.Err? {
      return;
    }
    var index := replies.acquire.value;
    if data.imagesInFlight[index].Some? {
      var e2 := Event(WaitForFence(data.imagesInFlight[index].value), replies.waitImageFence.Ok?);
      Extend(s, [e0] + [e1], e2, t);
      t := FenceStep(t, e2).value;
    }
  }

  /** Reset, submit and present keep the rules when the frame's fence is not pending: the
      reset unsignals it and a successful submission makes it pending. */
  lemma SubmitKeepsFenceRules(data: AppData, frame: nat, index: nat, s: FenceState, replies: FrameReplies)
    requires SyncReady(data) && frame < MAX_FRAMES_IN_FLIGHT && index < |data.commandBuffers|
    requires Live(data, s) && data.inFlightFences[frame] !in s.pending
    ensures var r := FenceRun(s, SubmitEvents(data, frame, index, replies));
      && r.Some?
      && r.value.pending <= s.pending + {data.inFlightFences[frame]}
      && (replies.resetFence.Err? || replies.submit.Ok? ==> Live(data, r.value))
  {
    var fence := data.inFlightFences[frame];
    var e3 := Event(ResetFence(fence), replies.resetFence.Ok?);
    Extend(s, [], e3, s);
    assert [] + [e3] == [e3];
    var s4 := FenceStep(s, e3).value;
    if replies.resetFence.Err? {
      return;
    }
    var e4 := Event(QueueSubmit(data.graphicsQueue, data.imageAvailableSemaphores[frame],
                                COLOR_ATTACHMENT_OUTPUT, data.commandBuffers[index],
                                data.renderFinishedSemaphores[frame], fence), replies.submit.Ok?);
    Extend(s, [e3], e4, s4);
    var s5 := FenceStep(s4, e4).value;
    if replies.submit.Err? {
      return;
    }
    var e5 := Event(QueuePresent(data.presentQueue, data.renderFinishedSemaphores[frame],
                                 data.swapchain, index), replies.present.Ok?);
    Extend(s, [e3] + [e4], e5, s5);
  }

  /** Running two call sequences one after the other is running their concatenation. */
  lemma {:induction false} FenceRunAppend(s: FenceState, a: seq<Event>, b: seq<Event>)
    ensures FenceRun(s, a + b) ==
      match FenceRun(s, a)
      case None => None
      case Some(t) => FenceRun(t, b)
    decreases |b|
  {
    if b == [] {
      assert a + b == a;
    } else {
      var init := b[..|b| - 1];
      FenceRunAppend(s, a, init);
      assert (a + b)[..|a + b| - 1] == a + init;
    }
  }

  /** The state `render` leaves: the fence state its calls lead to, and `AppData` with the
      updated `images_in_flight`, still of the shape the frame loop relies on. */
  lemma RenderPostState(data: AppData, frame: nat, s: FenceState, replies: FrameReplies)
    returns (t: FenceState)
    requires SyncReady(data) && frame < MAX_FRAMES_IN_FLIGHT && AcquireInRange(data, replies)
    requires Live(data, s) && s.pending <= SetOf(data.inFlightFences)
    ensures FenceRun(s, RenderEvents(data, frame, replies)) == Some(t)
    ensures var data' := data.(imagesInFlight := ImagesAfterRender(data, frame, replies));
      && SyncReady(data')
      && t.pending <= SetOf(data'.inFlightFences)
      && (!StrandsFence(data, replies) ==> Live(data', t))
  {
    RenderKeepsFenceRules(data, frame, s, replies);
    t := FenceRun(s, RenderEvents(data, frame, replies)).value;
  }

  /** One more call after a run that kept the rules. */
  lemma Extend(s: FenceState, events: seq<Event>, e: Event, t: FenceState)
    requires FenceRun(s, events) == Some(t)
    ensures FenceRun(s, events + [e]) == FenceStep(t, e)
  {
    FenceRunSnoc(s, events, e);
  }

  // ---------------------------------------------------------------------------------
  // Creating and destroying synchronisation objects

  /** The handles returned by the first `count` creation calls that belong to `slot`
      (0: image-available semaphores, 1: render-finished semaphores, 2: fences), in order:
      the calls cycle through the three slots. */
  function Created(replies: seq<Result<Handle, VkError>>, count: nat, slot: nat): seq<Handle>
    requires count <= |replies| && slot < 3
    requires forall j :: 0 <= j < count ==> replies[j].Ok?
  {
    seq((count + 2 - slot) / 3, i requires 0 <= i < (count + 2 - slot) / 3 => replies[3 * i + slot].value)
  }

  /** The creation calls `create_sync_objects` makes, the first `count` of them. */
  function CreateEvents(replies: seq<Result<Handle, VkError>>, count: nat): seq<Event>
    requires count <= |replies|
  {
    seq(count, k requires 0 <= k < count =>
      Event(if k % 3 == 2 then CreateFence(true) else CreateSemaphore, replies[k].Ok?))
  }

  /** `data` with the handles of the first `count` creation calls pushed onto the three
      vectors. */
  function PushCreated(data: AppData, replies: seq<Result<Handle, VkError>>, count: nat): AppData
    requires count <= |replies|
    requires forall j :: 0 <= j < count ==> replies[j].Ok?
  {
    data.(imageAvailableSemaphores := data.imageAvailableSemaphores + Created(replies, count, 0),
          renderFinishedSemaphores := data.renderFinishedSemaphores + Created(replies, count, 1),
          inFlightFences := data.inFlightFences + Created(replies, count, 2))
  }

  /** The index of the first failed creation call, or the number of calls when none
      fails. */
  function FirstFailure(replies: seq<Result<Handle, VkError>>): (k: nat)
    ensures k <= |replies|
    ensures forall j :: 0 <= j < k ==> replies[j].Ok?
    ensures k < |replies| ==> replies[k].Err?
  {
    if replies == [] then 0
    else if replies[0].Err? then 0
    else 1 + FirstFailure(replies[1..])
  }

  /** The first failure is the failed call every earlier call of which succeeded. */
  lemma FirstFailureAt(replies: seq<Result<Handle, VkError>>, n: nat)
    requires n <= |replies| && forall j :: 0 <= j < n ==> replies[j].Ok?
    requires n < |replies| ==> replies[n].Err?
    ensures FirstFailure(replies) == n
  {
  }

  /** One more successful creation call adds its handle to the vector of its slot. */
  lemma CreatedStep(replies: seq<Result<Handle, VkError>>, count: nat)
    requires count < |replies|
    requires forall j :: 0 <= j <= count ==> replies[j].Ok?
    ensures forall slot :: 0 <= slot < 3 ==>
      Created(replies, count + 1, slot)
      == Created(replies, count, slot) + (if count % 3 == slot then [replies[count].value] else [])
  {
    forall slot | 0 <= slot < 3
      ensures Created(replies, count + 1, slot)
              == Created(replies, count, slot) + (if count % 3 == slot then [replies[count].value] else [])
    {
      var q := count / 3;
      assert count == 3 * q + count % 3;
      if count % 3 == slot {
        assert (count + 3 - slot) / 3 == q + 1 && (count + 2 - slot) / 3 == q;
      } else {
        assert (count + 3 - slot) / 3 == (count + 2 - slot) / 3;
      }
    }
  }

  lemma CreateEventsStep(replies: seq<Result<Handle, VkError>>, count: nat)
    requires count < |replies|
    ensures CreateEvents(replies, count + 1)
      == CreateEvents(replies, count)
         + [Event(if count % 3 == 2 then CreateFence(true) else CreateSemaphore, replies[count].Ok?)]
  {
  }

  /** The destruction of each handle of `hs`, in order. */
  function DestroyEach(kind: ObjectKind, hs: seq<Handle>): seq<Event> {
    seq(|hs|, i requires 0 <= i < |hs| => Event(Destroy(kind, hs[i]), true))
  }

  /** `destroy_sync_objects`: render-finished semaphores, image-available semaphores, then
      the fences; the images-in-flight entries are only borrowed and are not destroyed. */
  function SyncDestroyEvents(data: AppData): seq<Event> {
    DestroyEach(SEMAPHORE, data.renderFinishedSemaphores)
    + DestroyEach(SEMAPHORE, data.imageAvailableSemaphores)
    + DestroyEach(FENCE, data.inFlightFences)
  }

  /** The handles of one kind that a sequence of calls destroys, in order. */
  function Destroyed(events: seq<Event>, kind: ObjectKind): seq<Handle> {
    if events == [] then []
    else
      var last := events[|events| - 1];
      Destroyed(events[..|events| - 1], kind)
      + (if last.call.Destroy? && last.call.kind == kind then [last.call.handle] else [])
  }

  lemma {:induction false} DestroyedAppend(a: seq<Event>, b: seq<Event>, kind: ObjectKind)
    ensures Destroyed(a + b, kind) == Destroyed(a, kind) + Destroyed(b, kind)
    decreases |b|
  {
    if b == [] {
      assert a + b == a;
    } else {
      var init := b[..|b| - 1];
      DestroyedAppend(a, init, kind);
      assert (a + b)[..|a + b| - 1] == a + init;
    }
  }

  lemma {:induction false} DestroyedEach(kind: ObjectKind, hs: seq<Handle>, other: ObjectKind)
    ensures Destroyed(DestroyEach(kind, hs), other) == if other == kind then hs else []
    decreases |hs|
  {
    if hs != [] {
      var init := hs[..|hs| - 1];
      DestroyedEach(kind, init, other);
      assert DestroyEach(kind, hs)[..|hs| - 1] == DestroyEach(kind, init);
    }
  }

  /** `destroy_sync_objects` destroys every semaphore and every fence exactly as often as
      it is held (once each when the handles are distinct) and nothing else. */
  lemma SyncObjectsDestroyedOnce(data: AppData)
    ensures multiset(Destroyed(SyncDestroyEvents(data), FENCE)) == multiset(data.inFlightFences)
    ensures multiset(Destroyed(SyncDestroyEvents(data), SEMAPHORE))
            == multiset(data.renderFinishedSemaphores) + multiset(data.imageAvailableSemaphores)
    ensures forall kind :: kind != FENCE && kind != SEMAPHORE ==>
              Destroyed(SyncDestroyEvents(data), kind) == []
  {
    var rf := DestroyEach(SEMAPHORE, data.renderFinishedSemaphores);
    var ia := DestroyEach(SEMAPHORE, data.imageAvailableSemaphores);
    var fs := DestroyEach(FENCE, data.inFlightFences);
    forall kind
      ensures Destroyed(SyncDestroyEvents(data), kind)
              == Destroyed(rf, kind) + Destroyed(ia, kind) + Destroyed(fs, kind)
    {
      DestroyedAppend(rf + ia, fs, kind);
      DestroyedAppend(rf, ia, kind);
    }
    forall kind
      ensures Destroyed(rf, kind) == (if kind == SEMAPHORE then data.renderFinishedSemaphores else [])
      ensures Destroyed(ia, kind) == (if kind == SEMAPHORE then data.imageAvailableSemaphores else [])
      ensures Destroyed(fs, kind) == (if kind == FENCE then data.inFlightFences else [])
    {
      DestroyedEach(SEMAPHORE, data.renderFinishedSemaphores, kind);
      DestroyedEach(SEMAPHORE, data.imageAvailableSemaphores, kind);
      DestroyedEach(FENCE, data.inFlightFences, kind);
    }
  }

  /** The device-level objects `App::destroy` destroys after the sync objects: command
      pool, framebuffers, pipeline, render pass, pipeline layout, image views, swapchain. */
  function DeviceObjectsTeardown(data: AppData): seq<Event> {
    [Event(Destroy(COMMAND_POOL, data.commandPool), true)]
    + DestroyEach(FRAMEBUFFER, data.framebuffers)
    + [Event(Destroy(PIPELINE, data.pipeline), true),
       Event(Destroy(RENDER_PASS, data.renderPass), true),
       Event(Destroy(PIPELINE_LAYOUT, data.pipelineLayout), true)]
    + DestroyEach(IMAGE_VIEW, data.swapchainImageViews)
    + [Event(Destroy(SWAPCHAIN, data.swapchain), true)]
  }

  /** The end of `App::destroy`: device, surface, the debug messenger when validation is
      on, and the instance. */
  function InstanceTeardown(data: AppData, device: Handle, instance: Handle, validation: bool): seq<Event> {
    [Event(Destroy(DEVICE, device), true), Event(Destroy(SURFACE, data.surface), true)]
    + (if validation then [Event(Destroy(DEBUG_MESSENGER, data.messenger), true)] else [])
    + [Event(Destroy(INSTANCE, instance), true)]
  }

  /** `App::destroy`. */
  function TeardownEvents(data: AppData, device: Handle, instance: Handle, validation: bool): seq<Event> {
    SyncDestroyEvents(data) + DeviceObjectsTeardown(data) + InstanceTeardown(data, device, instance, validation)
  }

  /** Teardown destroys every device-level object before the device, then the surface,
      the debug messenger exactly when validation is on, and the instance last. */
  lemma TeardownOrder(data: AppData, device: Handle, instance: Handle, validation: bool)
    ensures var e := TeardownEvents(data, device, instance, validation);
      var d := |e| - (if validation then 4 else 3);
      && 0 <= d && d + 1 < |e|
      && (forall i :: 0 <= i < d ==> e[i].call.Destroy? && DeviceLevel(e[i].call.kind))
      && e[d].call == Destroy(DEVICE, device)
      && e[d + 1].call == Destroy(SURFACE, data.surface)
      && (validation <==> e[d + 2].call == Destroy(DEBUG_MESSENGER, data.messenger))
      && e[|e| - 1].call == Destroy(INSTANCE, instance)
      && forall i :: 0 <= i < |e| ==> e[i].call.Destroy? && e[i].ok
  {
    var e := TeardownEvents(data, device, instance, validation);
    var head := SyncDestroyEvents(data) + DeviceObjectsTeardown(data);
    var tail := InstanceTeardown(data, device, instance, validation);
    assert e == head + tail;
    assert forall i :: 0 <= i < |head| ==> head[i].call.Destroy? && DeviceLevel(head[i].call.kind) && head[i].ok;
  }

  /** After every frame fence's submission has completed (as `wait_for_device_idle`
      ensures), teardown breaks no fence rule. */
  lemma TeardownKeepsFenceRules(data: AppData, device: Handle, instance: Handle, validation: bool,
                                s: FenceState)
    requires forall f :: f in data.inFlightFences ==> f !in s.pending
    ensures FenceRun(s, TeardownEvents(data, device, instance, validation)).Some?
  {
    var e := TeardownEvents(data, device, instance, validation);
    var sync := SyncDestroyEvents(data);
    var rest := DeviceObjectsTeardown(data) + InstanceTeardown(data, device, instance, validation);
    assert e == sync + rest;
    var semaphores := DestroyEach(SEMAPHORE, data.renderFinishedSemaphores)
                      + DestroyEach(SEMAPHORE, data.imageAvailableSemaphores);
    assert sync == semaphores + DestroyEach(FENCE, data.inFlightFences);
    assert forall i :: 0 <= i < |sync| && sync[i].call.kind == FENCE ==>
             sync[i].call.handle in data.inFlightFences;
    assert forall i :: 0 <= i < |rest| ==> rest[i].call.Destroy? && rest[i].call.kind != FENCE;
    DestroysKeepFenceRules(s, e);
  }

  /** A run of destructions keeps the fence rules as long as no destroyed fence is
      pending. */
  lemma {:induction false} DestroysKeepFenceRules(s: FenceState, events: seq<Event>)
    requires forall i :: 0 <= i < |events| ==> events[i].call.Destroy?
    requires forall i :: 0 <= i < |events| && events[i].call.kind == FENCE ==>
               events[i].call.handle !in s.pending
    ensures FenceRun(s, events).Some? && FenceRun(s, events).value.pending == s.pending
    decreases |events|
  {
    if events != [] {
      var init := events[..|events| - 1];
      DestroysKeepFenceRules(s, init);
    }
  }

  /** At most `MAX_FRAMES_IN_FLIGHT` submissions are pending when only frame fences can
      be pending. */
  lemma {:induction false} PendingBoundedByFences(fences: seq<Handle>, pending: set<Handle>)
    requires pending <= SetOf(fences)
    ensures |pending| <= |fences|
    decreases |fences|
  {
    if fences != [] {
      var last := fences[|fences| - 1];
      var init := fences[..|fences| - 1];
      assert fences == init + [last];
      assert pending - {last} <= SetOf(init);
      PendingBoundedByFences(init, pending - {last});
    }
  }

  // ---------------------------------------------------------------------------------
  // The application object

  /** `App`: the loaded instance and device, `AppData`, and the current frame slot. */
  class App {
    const instance: Handle
    const device: Handle
    /** Whether validation layers are enabled (`should_enable_validation_layers`). */
    const validation: bool
    var data: AppData
    var frame: nat
    /** Every driver call made so far, in order. */
    var trace: seq<Event>
    ghost var signalled: set<Handle>
    ghost var pending: set<Handle>

    ghost function Fences(): FenceState
      reads this
    {
      FenceState(signalled, pending)
    }

    /** The frame invariant: the sync objects exist, `frame` is a slot index, every frame
        fence is signalled or pending, and only frame fences are pending. */
    ghost predicate Valid()
      reads this
    {
      && SyncReady(data)
      && frame < MAX_FRAMES_IN_FLIGHT
      && Live(data, Fences())
      && pending <= SetOf(data.inFlightFences)
    }

    /** The `App` value built at the end of `App::create`, before the sync objects exist;
        `frame` starts at 0. */
    constructor (instance: Handle, device: Handle, validation: bool, data: AppData)
      ensures this.instance == instance && this.device == device && this.validation == validation
      ensures this.data == data && frame == 0 && trace == []
      ensures signalled == {} && pending == {}
    {
      this.instance := instance;
      this.device := device;
      this.validation := validation;
      this.data := data;
      frame := 0;
      trace := [];
      signalled := {};
      pending := {};
    }

    /** `create_sync_objects`: for each frame slot, an image-available semaphore, a
        render-finished semaphore and a fence created signalled, each pushed as created;
        the first failure returns at once and leaves the vectors partly filled. On success
        `images_in_flight` gets one null entry per swapchain image. */
    method CreateSyncObjects(replies: seq<Result<Handle, VkError>>) returns (r: Result<(), VkError>)
      requires |replies| == 3 * MAX_FRAMES_IN_FLIGHT
      modifies this
      ensures frame == old(frame) && pending == old(pending)
      ensures r.Ok? <==> FirstFailure(replies) == |replies|
      ensures r.Ok? ==>
        && data == PushCreated(old(data), replies, |replies|)
                     .(imagesInFlight := seq(|old(data).swapchainImages|, _ => None))
        && trace == old(trace) + CreateEvents(replies, |replies|)
        && signalled == old(signalled) + SetOf(Created(replies, |replies|, 2))
      ensures r.Err? ==>
        && FirstFailure(replies) < |replies| && r.error == replies[FirstFailure(replies)].error
        && FailedAt(replies, FirstFailure(replies), old(data), old(trace), old(signalled))
    {
      ghost var data0 := data;
      ghost var trace0 := trace;
      ghost var signalled0 := signalled;
      var n := 0;
      for i := 0 to MAX_FRAMES_IN_FLIGHT
        invariant n == 3 * i
        invariant CreatedSoFar(replies, n, data0, trace0, signalled0)
        invariant frame == old(frame) && pending == old(pending)
      {
        // image-available semaphore, render-finished semaphore, then a signalled fence
        var ok := CreateOne(replies, n, data0, trace0, signalled0);
        if !ok {
          return Err(replies[n].error);
        }
        ok := CreateOne(replies, n + 1, data0, trace0, signalled0);
        if !ok {
          return Err(replies[n + 1].error);
        }
        ok := CreateOne(replies, n + 2, data0, trace0, signalled0);
        if !ok {
          return Err(replies[n + 2].error);
        }
        n := n + 3;
      }
      FirstFailureAt(replies, n);
      ClearImagesInFlight();
      return Ok(());
    }

    /** The first `n` creation calls have been made and have all succeeded. */
    ghost predicate CreatedSoFar(replies: seq<Result<Handle, VkError>>, n: nat, data0: AppData,
                                 trace0: seq<Event>, signalled0: set<Handle>)
      reads this
    {
      && n <= |replies|
      && (forall j :: 0 <= j < n ==> replies[j].Ok?)
      && data == PushCreated(data0, replies, n)
      && trace == trace0 + CreateEvents(replies, n)
      && signalled == signalled0 + SetOf(Created(replies, n, 2))
    }

    /** Creation call `k` failed after all earlier ones succeeded: the handles created so
        far are pushed, and the calls up to and including the failed one are recorded. */
    ghost predicate FailedAt(replies: seq<Result<Handle, VkError>>, k: nat, data0: AppData,
                             trace0: seq<Event>, signalled0: set<Handle>)
      reads this
    {
      && k < |replies|
      && (forall j :: 0 <= j < k ==> replies[j].Ok?)
      && data == PushCreated(data0, replies, k)
      && trace == trace0 + CreateEvents(replies, k + 1)
      && signalled == signalled0 + SetOf(Created(replies, k, 2))
    }

    /** `images_in_flight`: one null fence per swapchain image. */
    method ClearImagesInFlight()
      modifies this
      ensures data == old(data).(imagesInFlight := seq(|old(data).swapchainImages|, _ => None))
      ensures frame == old(frame) && trace == old(trace)
      ensures signalled == old(signalled) && pending == old(pending)
    {
      var nulls: seq<Option<Handle>> := [];
      for i := 0 to |data.swapchainImages|
        invariant nulls == seq(i, _ => None)
      {
        nulls := nulls + [None];
      }
      data := data.(imagesInFlight := nulls);
    }

    /** One creation call of `create_sync_objects`: call number `n` creates a semaphore, or
        a signalled fence when `n % 3 == 2`, and on success pushes the handle onto the
        vector of its slot. */
    method CreateOne(replies: seq<Result<Handle, VkError>>, n: nat, ghost data0: AppData,
                     ghost trace0: seq<Event>, ghost signalled0: set<Handle>)
      returns (ok: bool)
      requires n < |replies|
      requires CreatedSoFar(replies, n, data0, trace0, signalled0)
      modifies this
      ensures ok == replies[n].Ok?
      ensures frame == old(frame) && pending == old(pending)
      ensures ok ==> CreatedSoFar(replies, n + 1, data0, trace0, signalled0)
      ensures !ok ==> FirstFailure(replies) == n && FailedAt(replies, n, data0, trace0, signalled0)
    {
      CreateEventsStep(replies, n);
      trace := trace + [Event(if n % 3 == 2 then CreateFence(true) else CreateSemaphore, replies[n].Ok?)];
      if replies[n].Err? {
        FirstFailureAt(replies, n);
        return false;
      }
      CreatedStep(replies, n);
      var h := replies[n].value;
      if n % 3 == 0 {
        data := data.(imageAvailableSemaphores := data.imageAvailableSemaphores + [h]);
      } else if n % 3 == 1 {
        data := data.(renderFinishedSemaphores := data.renderFinishedSemaphores + [h]);
      } else {
        data := data.(inFlightFences := data.inFlightFences + [h]);
        signalled := signalled + {h};
      }
      return true;
    }

    /** `App::render`. */
    method Render(replies: FrameReplies) returns (r: Result<(), VkError>)
      requires Valid()
      requires AcquireInRange(data, replies)
      modifies this
      ensures trace == old(trace) + RenderEvents(old(data), old(frame), replies)
      ensures r == RenderResult(old(data), replies)
      ensures data == old(data).(imagesInFlight := ImagesAfterRender(old(data), old(frame), replies))
      ensures frame == if r.Ok? then (old(frame) + 1) % MAX_FRAMES_IN_FLIGHT else old(frame)
      ensures Some(Fences()) == FenceRun(old(Fences()), RenderEvents(old(data), old(frame), replies))
      ensures SyncReady(data) && frame < MAX_FRAMES_IN_FLIGHT
      ensures !StrandsFence(old(data), replies) ==> Valid()
    {
      // The host-visible fence states after this call's driver calls.
      ghost var after := RenderPostState(data, frame, Fences(), replies);
      signalled, pending := after.signalled, after.pending;

      var acquired := AcquireImage(replies);
      if acquired.Err? {
        return Err(acquired.error);
      }
      var index := acquired.value;
      data := data.(imagesInFlight := data.imagesInFlight[index := Some(data.inFlightFences[frame])]);
      r := SubmitAndPresent(index, replies);
      if r.Ok? {
        frame := (frame + 1) % MAX_FRAMES_IN_FLIGHT;
      }
    }

    /** The first half of `App::render`: wait on the frame's fence, acquire an image, and
        wait on the image's recorded fence if it has one. */
    method AcquireImage(replies: FrameReplies) returns (r: Result<nat, VkError>)
      requires SyncReady(data) && frame < MAX_FRAMES_IN_FLIGHT && AcquireInRange(data, replies)
      modifies this
      ensures data == old(data) && frame == old(frame)
      ensures signalled == old(signalled) && pending == old(pending)
      ensures trace == old(trace) + AcquireEvents(data, frame, replies)
      ensures r.Ok? <==> ReachesImageUpdate(data, replies)
      ensures r.Ok? ==> r.value == replies.acquire.value
      ensures r.Err? ==> RenderResult(data, replies) == Err(r.error)
    {
      // Wait until the frame slot's previous submission has finished.
      trace := trace + [Event(WaitForFence(data.inFlightFences[frame]), replies.waitFence.Ok?)];
      if replies.waitFence.Err? {
        return Err(replies.waitFence.error);
      }

      trace := trace + [Event(AcquireNextImage(data.swapchain, data.imageAvailableSemaphores[frame]),
                              replies.acquire.Ok?)];
      if replies.acquire.Err? {
        return Err(replies.acquire.error);
      }
      var index := replies.acquire.value;

      // Wait for the image's previous submission, if it has one.
      if data.imagesInFlight[index].Some? {
        trace := trace + [Event(WaitForFence(data.imagesInFlight[index].value), replies.waitImageFence.Ok?)];
        if replies.waitImageFence.Err? {
          return Err(replies.waitImageFence.error);
        }
      }
      return Ok(index);
    }

    /** The second half of `App::render`: reset the frame's fence, submit, present. */
    method SubmitAndPresent(index: nat, replies: FrameReplies) returns (r: Result<(), VkError>)
      requires SyncReady(data) && frame < MAX_FRAMES_IN_FLIGHT && index < |data.commandBuffers|
      modifies this
      ensures data == old(data) && frame == old(frame)
      ensures trace == old(trace) + SubmitEvents(data, frame, index, replies)
      ensures r == SubmitResult(replies)
      ensures signalled == old(signalled) && pending == old(pending)
    {
      var fence := data.inFlightFences[frame];
      trace := trace + [Event(ResetFence(fence), replies.resetFence.Ok?)];
      if replies.resetFence.Err? {
        return Err(replies.resetFence.error);
      }

      trace := trace + [Event(QueueSubmit(data.graphicsQueue, data.imageAvailableSemaphores[frame],
                                          COLOR_ATTACHMENT_OUTPUT, data.commandBuffers[index],
                                          data.renderFinishedSemaphores[frame], fence),
                              replies.submit.Ok?)];
      if replies.submit.Err? {
        return Err(replies.submit.error);
      }

      trace := trace + [Event(QueuePresent(data.presentQueue, data.renderFinishedSemaphores[frame],
                                           data.swapchain, index), replies.present.Ok?)];
      if replies.present.Err? {
        return Err(replies.present.error);
      }
      return Ok(());
    }

    /** `wait_for_device_idle`: once the device is idle every submission has completed. */
    method WaitForDeviceIdle(reply: Result<(), VkError>) returns (r: Result<(), VkError>)
      requires Valid()
      modifies this
      ensures r == reply
      ensures trace == old(trace) + [Event(DeviceWaitIdle, reply.Ok?)]
      ensures data == old(data) && frame == old(frame)
      ensures Some(Fences()) == FenceRun(old(Fences()), [Event(DeviceWaitIdle, reply.Ok?)])
      ensures r.Ok? ==> pending == {}
      ensures Valid()
    {
      FenceRunSnoc(Fences(), [], Event(DeviceWaitIdle, reply.Ok?));
      assert [] + [Event(DeviceWaitIdle, reply.Ok?)] == [Event(DeviceWaitIdle, reply.Ok?)];
      trace := trace + [Event(DeviceWaitIdle, reply.Ok?)];
      if reply.Ok? {
        signalled, pending := signalled + pending, {};
      }
      return reply;
    }

    /** `destroy_sync_objects`. */
    method DestroySyncObjects()
      modifies this
      ensures trace == old(trace) + SyncDestroyEvents(data)
      ensures data == old(data) && frame == old(frame)
    {
      DestroyAll(SEMAPHORE, data.renderFinishedSemaphores);
      DestroyAll(SEMAPHORE, data.imageAvailableSemaphores);
      DestroyAll(FENCE, data.inFlightFences);
    }

    /** Appends the destruction of each handle, in order (the `for_each` loops). */
    method DestroyAll(kind: ObjectKind, hs: seq<Handle>)
      modifies this
      ensures trace == old(trace) + DestroyEach(kind, hs)
      ensures data == old(data) && frame == old(frame)
    {
      for i := 0 to |hs|
        invariant trace == old(trace) + DestroyEach(kind, hs[..i])
        invariant data == old(data) && frame == old(frame)
      {
        trace := trace + [Event(Destroy(kind, hs[i]), true)];
      }
      assert hs[..|hs|] == hs;
    }

    /** `App::destroy`. */
    method DestroyApp()
      modifies this
      ensures trace == old(trace) + TeardownEvents(data, device, instance, validation)
      ensures data == old(data) && frame == old(frame)
    {
      DestroySyncObjects();
      DestroyDeviceObjects();
      ghost var deviceChildren := trace;
      trace := trace + [Event(Destroy(DEVICE, device), true)];
      trace := trace + [Event(Destroy(SURFACE, data.surface), true)];
      if validation {
        trace := trace + [Event(Destroy(DEBUG_MESSENGER, data.messenger), true)];
      }
      trace := trace + [Event(Destroy(INSTANCE, instance), true)];
      assert trace == deviceChildren + InstanceTeardown(data, device, instance, validation);
    }

    /** The part of `App::destroy` between the sync objects and the device. */
    method DestroyDeviceObjects()
      modifies this
      ensures data == old(data) && frame == old(frame)
      ensures trace == old(trace) + DeviceObjectsTeardown(data)
    {
      trace := trace + [Event(Destroy(COMMAND_POOL, data.commandPool), true)];
      DestroyAll(FRAMEBUFFER, data.framebuffers);
      trace := trace + [Event(Destroy(PIPELINE, data.pipeline), true)];
      trace := trace + [Event(Destroy(RENDER_PASS, data.renderPass), true)];
      trace := trace + [Event(Destroy(PIPELINE_LAYOUT, data.pipelineLayout), true)];
      DestroyAll(IMAGE_VIEW, data.swapchainImageViews);
      trace := trace + [Event(Destroy(SWAPCHAIN, data.swapchain), true)];
    }
  }

  /** The throttle `MAX_FRAMES_IN_FLIGHT` stands for: in a valid application no more
      submissions are pending than there are frame slots. */
  lemma AtMostMaxFramesInFlight(app: App)
    requires app.Valid()
    ensures |app.pending| <= MAX_FRAMES_IN_FLIGHT
  {
    PendingBoundedByFences(app.data.inFlightFences, app.pending);
  }

  /** The last step of `App::create`: the sync objects are created on the `App` value,
      whose frame starts at 0. The steps before it (instance, surface, device, swapchain,
      pipeline, framebuffers, command buffers) are the plumbing that produced `data`. */
  method Create(instance: Handle, device: Handle, validation: bool, data: AppData,
                syncReplies: seq<Result<Handle, VkError>>)
    returns (r: Result<App, VkError>)
    requires |syncReplies| == 3 * MAX_FRAMES_IN_FLIGHT
    requires data.imageAvailableSemaphores == [] && data.renderFinishedSemaphores == []
    requires data.inFlightFences == []
    requires |data.commandBuffers| == |data.swapchainImages|
    ensures r.Ok? <==> forall j :: 0 <= j < |syncReplies| ==> syncReplies[j].Ok?
    ensures r.Err? ==> r.error == syncReplies[FirstFailure(syncReplies)].error
    ensures r.Ok? ==> fresh(r.value) && r.value.frame == 0 && r.value.Valid()
    ensures r.Ok? ==> r.value.pending == {} && SetOf(r.value.data.inFlightFences) <= r.value.signalled
    ensures r.Ok? ==> forall i :: 0 <= i < |r.value.data.imagesInFlight| ==> r.value.data.imagesInFlight[i] == None
  {
    var app := new App(instance, device, validation, data);
    var created := app.CreateSyncObjects(syncReplies);
    if created.Err? {
      return Err(created.error);
    }
    assert app.data.inFlightFences == Created(syncReplies, |syncReplies|, 2);
    return Ok(app);
  }
}
