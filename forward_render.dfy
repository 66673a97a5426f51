/**
 * The forward renderer: it owns the swapchain render targets, one backup
 * colour target, a command pool with one command buffer per swapchain image,
 * a descriptor pool and the ordered list of render passes, and drives one
 * frame per tick (acquire, record both passes, submit, present).
 *
 * The render passes themselves are outside this model: initializing, drawing
 * and recreating a pass is one logged event. The surface's answers (the
 * acquired image index, and whether acquire or present found the surface out
 * of date) are parameters of a tick.
 */
module ForwardRendering {
  import opened Wrappers
  import opened Vk
  import opened RenderFrame

  /** Slots of the render-pass list and its length. */
  const MainCameraSlot: nat := 0
  const UIOverlaySlot: nat := 1
  const PassCount: nat := 2

  /** The pass list as setupRenderpass fills it, in slot order. */
  const PassOrder: seq<PassKind> := [MainCameraPass, UIOverlayPass]

  /** The 32-bit index the acquire reports when no image is available: -1 read as uint32. */
  const NoImage: nat := U32Modulus - 1

  const BackupFormat: Format := R8G8B8A8Unorm

  /** The descriptor pool: one uniform buffer, one dynamic uniform buffer, two input attachments, two samplers. */
  const DescriptorPoolSizes: seq<PoolSize> :=
    [PoolSize(UniformBuffer, 1), PoolSize(UniformBufferDynamic, 1), PoolSize(InputAttachment, 2),
     PoolSize(CombinedImageSampler, 2)]

  const DescriptorPoolMaxSets: nat := 4

  /** A value-initialised attachment: null handles, undefined format and layout. */
  const NullAttachment: ImageAttachment := ImageAttachment(NullHandle, NullHandle, NullHandle, FormatUndefined,
                                                           LayoutUndefined)

  /** The two initialization failures, thrown as runtime errors. */
  datatype InitError = CommandPoolCreationFailed | CommandBufferAllocationFailed

  /** A 4x4 float matrix; its entries are carried as reals and never computed with. */
  type Matrix4x4 = seq<real>

  /** One entry of the per-model uniform buffer: the model matrix and the normal matrix. */
  datatype ModelDefine = ModelDefine(model: Matrix4x4, normal: Matrix4x4)

  /** What the surface reports to an acquire or a present: usable, or out of date with a new configuration. */
  datatype SurfaceStatus = SurfaceOk | SurfaceOutOfDate(imageCount: nat, format: Format, extent: Extent2D)

  /** std::vector::resize: keep the first n elements, pad with `fill`. */
  function Resize<T>(s: seq<T>, n: nat, fill: T): (r: seq<T>)
    ensures |r| == n
    ensures forall i | 0 <= i < n && i < |s| :: r[i] == s[i]
    ensures forall i | |s| <= i < n :: r[i] == fill
  {
    if n <= |s| then s[..n] else s + seq(n - |s|, _ => fill)
  }

  /** The viewport and scissor that cover a swapchain extent. */
  function ViewportFor(e: Extent2D): Viewport {
    Viewport(0, 0, e.width, e.height, 0, 1)
  }

  function ScissorFor(e: Extent2D): Rect2D {
    Rect2D(0, 0, e)
  }

  /** Render target i is swapchain image i with view i, no memory of its own, the swapchain format, present layout. */
  ghost predicate TargetsMatch(targets: seq<ImageAttachment>, images: seq<Handle>, views: seq<Handle>, format: Format)
  {
    && |targets| == |images| == |views|
    && forall i | 0 <= i < |targets| :: targets[i] == ImageAttachment(images[i], NullHandle, views[i], format, PresentSrc)
  }

  /** The backup target built from handles h (image), h + 1 (memory), h + 2 (view). */
  function BackupTarget(h: Handle): ImageAttachment {
    ImageAttachment(h, h + 1, h + 2, BackupFormat, ColorAttachmentOptimal)
  }

  /** The calls setupBackupBuffer makes: a one-layer, one-level image of the extent, then its 2D view. */
  function BackupEvents(h: Handle, e: Extent2D): seq<Event> {
    [ImageCreated(h, h + 1, e.width, e.height, BackupFormat, 1, 1), ViewCreated(h + 2, h, BackupFormat, View2D, 1, 1)]
  }

  /** `n` command buffers allocated from `pool`, with consecutive handles from `first`. */
  function CommandBufferEvents(pool: Handle, first: Handle, n: nat): (r: seq<Event>)
    ensures |r| == n
  {
    seq(n, k requires 0 <= k < n => CommandBufferAllocated(pool, first + k))
  }

  /**
   * The calls setupCommandBuffer makes with `n` swapchain images when the
   * driver can create a pool and has `free` command buffers left: the pool
   * (handle `pool`), then allocations until one fails or all n are done.
   */
  function CommandSetupEvents(creatable: bool, pool: Handle, n: nat, free: nat): seq<Event> {
    if !creatable then [] else [CommandPoolCreated(pool)] + CommandBufferEvents(pool, pool + 1, if n <= free then n else free)
  }

  /** The main pass draws into the backup targets; the UI pass into the swapchain targets, reading backup 0. */
  const PassInitEvents: seq<Event> :=
    [PassInitialized(MainCameraPass, BackupTargetList, None), PassInitialized(UIOverlayPass, SwapchainTargetList, Some(0))]

  /**
   * The calls of a complete initialize, from first free handle h on a
   * swapchain of n images of extent e: backup target (h .. h + 2), command
   * pool (h + 3), n command buffers (h + 4 ..), descriptor pool, both passes.
   */
  function InitEvents(h: Handle, e: Extent2D, n: nat): seq<Event> {
    BackupEvents(h, e) + CommandSetupEvents(true, h + 3, n, n) + FinishEvents(h + 4 + n)
  }

  /** The calls after the command buffers: the descriptor pool (handle d), then both passes. */
  function FinishEvents(d: Handle): seq<Event> {
    [DescriptorPoolCreated(d, DescriptorPoolSizes, DescriptorPoolMaxSets)] + PassInitEvents
  }

  function PassRecreatedEvents(passes: seq<PassKind>): (r: seq<Event>)
    ensures |r| == |passes|
  {
    seq(|passes|, k requires 0 <= k < |passes| => PassRecreated(passes[k]))
  }

  /**
   * The calls of updateAfterSwapchainRecreate: the old backup image, view and
   * memory go, in that order; a new backup target of the new extent is built
   * from handle h; then every pass is told, in list order.
   */
  function RecreateEvents(prior: ImageAttachment, h: Handle, e: Extent2D, passes: seq<PassKind>): seq<Event> {
    [ImageDestroyed(prior.image), ViewDestroyed(prior.view), MemoryFreed(prior.mem)] + BackupEvents(h, e)
    + PassRecreatedEvents(passes)
  }

  /**
   * The calls a frame records on acquired image i with its command buffer b:
   * reset, begin, main pass into backup target 0, UI pass into target i, end,
   * submit, present.
   */
  function RecordEvents(i: nat, b: Handle): seq<Event> {
    [CommandBufferReset(b), CommandBufferBegun(b), PassDrawn(MainCameraPass, 0, b), PassDrawn(UIOverlayPass, i, b),
     CommandBufferEnded(b), CommandBufferSubmitted(b), ImagePresented(i)]
  }

  /**
   * The surface-dependent objects: the backup target, the next handle to be
   * handed out, and the swapchain's image count, format and extent.
   */
  datatype SurfaceObjects = SurfaceObjects(backup: ImageAttachment, nextHandle: Handle, imageCount: nat,
                                           format: Format, extent: Extent2D)

  /**
   * What an acquire or present leaves behind: on an out-of-date surface the
   * swapchain takes the reported configuration (its images and views using 2n
   * handles) and a new backup target follows; otherwise nothing changes.
   */
  function AfterSurface(status: SurfaceStatus, s: SurfaceObjects): SurfaceObjects {
    if status.SurfaceOutOfDate? then
      var h := s.nextHandle + 2 * status.imageCount;
      SurfaceObjects(BackupTarget(h), h + 3, status.imageCount, status.format, status.extent)
    else s
  }

  /** The calls an acquire or present makes on `status`: none, or the swapchain rebuild and the recreation callback. */
  function SurfaceEvents(status: SurfaceStatus, s: SurfaceObjects, passes: seq<PassKind>): seq<Event> {
    if status.SurfaceOutOfDate? then
      [SwapchainRebuilt(status.imageCount, status.format, status.extent)]
      + RecreateEvents(s.backup, s.nextHandle + 2 * status.imageCount, status.extent, passes)
    else []
  }

  /** The events of one frame: any recreation the acquire caused, then (on an image) the recording and any recreation the present caused. */
  datatype FrameLog = FrameLog(acquireEvents: seq<Event>, index: nat, buffer: Handle, presentEvents: seq<Event>)

  function FrameEvents(f: FrameLog): seq<Event> {
    f.acquireEvents + (if f.index == NoImage then [] else RecordEvents(f.index, f.buffer) + f.presentEvents)
  }

  /** A log extended by a frame's events is the log extended by the acquire's calls, then by the rest of the frame. */
  lemma FrameEventsSplit(log: seq<Event>, f: FrameLog)
    ensures log + FrameEvents(f)
            == log + f.acquireEvents + (if f.index == NoImage then [] else RecordEvents(f.index, f.buffer) + f.presentEvents)
  {
  }

  /** An event that belongs to recording, submitting or presenting a frame. */
  predicate IsFrameEvent(e: Event) {
    e.CommandBufferReset? || e.CommandBufferBegun? || e.CommandBufferEnded? || e.CommandBufferSubmitted?
    || e.ImagePresented? || e.PassDrawn?
  }

  /** No recording, no submission, no presentation. */
  ghost predicate Quiet(events: seq<Event>) {
    forall k | 0 <= k < |events| :: !IsFrameEvent(events[k])
  }

  /** The command buffers submitted, in order. */
  function Submitted(events: seq<Event>): seq<Handle> {
    if events == [] then []
    else (if events[0].CommandBufferSubmitted? then [events[0].buffer] else []) + Submitted(events[1..])
  }

  /** The image indices presented, in order. */
  function Presented(events: seq<Event>): seq<nat> {
    if events == [] then []
    else (if events[0].ImagePresented? then [events[0].index] else []) + Presented(events[1..])
  }

  lemma {:induction false} SubmittedAppend(a: seq<Event>, b: seq<Event>)
    ensures Submitted(a + b) == Submitted(a) + Submitted(b)
    ensures Presented(a + b) == Presented(a) + Presented(b)
    decreases |a|
  {
    if a == [] {
      assert a + b == b;
    } else {
      assert a + b == [a[0]] + (a[1..] + b);
      SubmittedCons(a[0], a[1..] + b);
      SubmittedCons(a[0], a[1..]);
      assert [a[0]] + a[1..] == a;
      SubmittedAppend(a[1..], b);
    }
  }

  /** Submitted and Presented look at the first event, then at the rest. */
  lemma SubmittedCons(e: Event, rest: seq<Event>)
    ensures Submitted([e] + rest) == (if e.CommandBufferSubmitted? then [e.buffer] else []) + Submitted(rest)
    ensures Presented([e] + rest) == (if e.ImagePresented? then [e.index] else []) + Presented(rest)
  {
    assert ([e] + rest)[1..] == rest;
  }

  lemma {:induction false} QuietSubmitsNothing(events: seq<Event>)
    requires Quiet(events)
    ensures Submitted(events) == [] && Presented(events) == []
    decreases |events|
  {
    if events != [] {
      assert Quiet(events[1..]) by {
        forall k | 0 <= k < |events[1..]|
          ensures !IsFrameEvent(events[1..][k])
        {
          assert events[1..][k] == events[k + 1];
        }
      }
      QuietSubmitsNothing(events[1..]);
    }
  }

  lemma QuietAppend(a: seq<Event>, b: seq<Event>)
    requires Quiet(a) && Quiet(b)
    ensures Quiet(a + b)
  {
    forall k | 0 <= k < |a + b|
      ensures !IsFrameEvent((a + b)[k])
    {
      if k >= |a| {
        assert (a + b)[k] == b[k - |a|];
      }
    }
  }

  /** Recreation records, submits and presents nothing. */
  lemma RecreateIsQuiet(prior: ImageAttachment, h: Handle, e: Extent2D, passes: seq<PassKind>, rebuilt: Event)
    requires rebuilt.SwapchainRebuilt?
    ensures Quiet([rebuilt] + RecreateEvents(prior, h, e, passes))
  {
    var r := [rebuilt] + RecreateEvents(prior, h, e, passes);
    forall k | 0 <= k < |r|
      ensures !IsFrameEvent(r[k])
    {
      if k >= 6 {
        assert r[k] == PassRecreatedEvents(passes)[k - 6];
      }
    }
  }

  /** The recording of a frame submits its buffer once and presents its image once. */
  lemma RecordSubmitsOnce(i: nat, b: Handle)
    ensures Submitted(RecordEvents(i, b)) == [b] && Presented(RecordEvents(i, b)) == [i]
  {
    var s6 := [ImagePresented(i)];
    SubmittedCons(ImagePresented(i), []);
    assert s6 == [ImagePresented(i)] + [];
    var s5 := [CommandBufferSubmitted(b)] + s6;
    SubmittedCons(CommandBufferSubmitted(b), s6);
    var s4 := [CommandBufferEnded(b)] + s5;
    SubmittedCons(CommandBufferEnded(b), s5);
    var s3 := [PassDrawn(UIOverlayPass, i, b)] + s4;
    SubmittedCons(PassDrawn(UIOverlayPass, i, b), s4);
    var s2 := [PassDrawn(MainCameraPass, 0, b)] + s3;
    SubmittedCons(PassDrawn(MainCameraPass, 0, b), s3);
    var s1 := [CommandBufferBegun(b)] + s2;
    SubmittedCons(CommandBufferBegun(b), s2);
    var s0 := [CommandBufferReset(b)] + s1;
    SubmittedCons(CommandBufferReset(b), s1);
    assert RecordEvents(i, b) == s0;
  }

  /**
   * One frame submits and presents exactly once when an image was acquired,
   * the buffer of that image and that image, and records, submits and
   * presents nothing when none was.
   */
  lemma FrameSubmitsOnce(f: FrameLog)
    requires Quiet(f.acquireEvents) && Quiet(f.presentEvents)
    ensures f.index == NoImage ==> Quiet(FrameEvents(f))
    ensures Submitted(FrameEvents(f)) == if f.index == NoImage then [] else [f.buffer]
    ensures Presented(FrameEvents(f)) == if f.index == NoImage then [] else [f.index]
  {
    QuietSubmitsNothing(f.acquireEvents);
    QuietSubmitsNothing(f.presentEvents);
    if f.index == NoImage {
      assert FrameEvents(f) == f.acquireEvents + [];
      SubmittedAppend(f.acquireEvents, []);
    } else {
      var rec := RecordEvents(f.index, f.buffer);
      SubmittedAppend(rec, f.presentEvents);
      SubmittedAppend(f.acquireEvents, rec + f.presentEvents);
      RecordSubmitsOnce(f.index, f.buffer);
    }
  }

  /** The events of a run of frames, one after the other. */
  function RunEvents(frames: seq<FrameLog>): seq<Event> {
    if frames == [] then [] else FrameEvents(frames[0]) + RunEvents(frames[1..])
  }

  /** The buffers of the frames that acquired an image, in frame order. */
  function SubmittedBuffers(frames: seq<FrameLog>): seq<Handle> {
    if frames == [] then [] else (if frames[0].index == NoImage then [] else [frames[0].buffer]) + SubmittedBuffers(frames[1..])
  }

  function PresentedImages(frames: seq<FrameLog>): seq<nat> {
    if frames == [] then [] else (if frames[0].index == NoImage then [] else [frames[0].index]) + PresentedImages(frames[1..])
  }

  ghost predicate QuietRecreations(frames: seq<FrameLog>) {
    forall k | 0 <= k < |frames| :: Quiet(frames[k].acquireEvents) && Quiet(frames[k].presentEvents)
  }

  /** Over a run of frames, submissions and presentations happen once per acquired image, in frame order. */
  lemma {:induction false} RunSubmitsInOrder(frames: seq<FrameLog>)
    requires QuietRecreations(frames)
    ensures Submitted(RunEvents(frames)) == SubmittedBuffers(frames)
    ensures Presented(RunEvents(frames)) == PresentedImages(frames)
    decreases |frames|
  {
    if frames != [] {
      FrameSubmitsOnce(frames[0]);
      assert QuietRecreations(frames[1..]) by {
        forall k | 0 <= k < |frames[1..]|
          ensures Quiet(frames[1..][k].acquireEvents) && Quiet(frames[1..][k].presentEvents)
        {
          assert frames[1..][k] == frames[k + 1];
        }
      }
      RunSubmitsInOrder(frames[1..]);
      SubmittedAppend(FrameEvents(frames[0]), RunEvents(frames[1..]));
    }
  }

  /**
   * The forward renderer. The renderer base it derives from is a component
   * here (`base`), holding the viewport, the scissor and the frame clock.
   */
  class ForwardRender {
    const dev: Device
    const base: RenderBase
    /** The value a resized model-UBO list gives its new entries. */
    const blankModelDefine: ModelDefine
    var renderTargets: seq<ImageAttachment>
    var backupTargets: seq<ImageAttachment>
    /** The extent the backup target was created with. */
    ghost var backupExtent: Extent2D
    var commandPool: Handle
    var commandBuffers: seq<Handle>
    var descriptorPool: Handle
    var renderPasses: seq<PassKind>
    /** The buffer the passes record into (the command info's current-buffer pointer). */
    var currentCommandBuffer: Handle
    var modelUBOList: seq<ModelDefine>

    /**
     * After initialize, and after every recreation: one RGBA8 backup target of
     * the swapchain's extent, the passes in slot order, one render target per
     * swapchain image, and the viewport and scissor covering the swapchain.
     */
    ghost predicate Valid()
      reads this`backupTargets, this`backupExtent, this`renderPasses, this`renderTargets
      reads dev`nextHandle, dev`swapchainImages, dev`swapchainImageViews, dev`samplers, dev`swapchainImageFormat
      reads dev`swapchainExtent
      reads base`viewport, base`scissor, base`frameCount, base`frameTimeTicks, base`lastFrameTime, base`currentFrameTime
    {
      && dev.Valid() && base.Valid()
      && |backupTargets| == 1 && backupTargets[0].format == BackupFormat
      && backupTargets[0].layout == ColorAttachmentOptimal && backupExtent == dev.swapchainExtent
      && BackupIssued()
      && renderPasses == PassOrder
      && TargetsMatch(renderTargets, dev.swapchainImages, dev.swapchainImageViews, dev.swapchainImageFormat)
      && base.viewport == ViewportFor(dev.swapchainExtent) && base.scissor == ScissorFor(dev.swapchainExtent)
    }

    /** The backup target's handles were handed out by the context, so every later handle differs from them. */
    ghost predicate BackupIssued()
      reads this`backupTargets, dev`nextHandle
    {
      |backupTargets| == 1
      && backupTargets[0].image < dev.nextHandle && backupTargets[0].mem < dev.nextHandle
      && backupTargets[0].view < dev.nextHandle
    }

    /** The renderer's and the context's surface-dependent objects. */
    ghost function Surface(): SurfaceObjects
      requires |backupTargets| == 1
      reads this`backupTargets, dev`nextHandle, dev`swapchainImages, dev`swapchainImageFormat, dev`swapchainExtent
    {
      SurfaceObjects(backupTargets[0], dev.nextHandle, |dev.swapchainImages|, dev.swapchainImageFormat,
                     dev.swapchainExtent)
    }

    /** A renderer over the context `dev`, with nothing set up yet. */
    constructor (dev: Device, blankModelDefine: ModelDefine)
      ensures this.dev == dev && this.blankModelDefine == blankModelDefine && fresh(base)
      ensures base.Clock() == InitialClock && base.Valid()
      ensures base.viewport == DefaultViewport && base.scissor == DefaultScissor
      ensures renderTargets == [] && backupTargets == [] && commandBuffers == [] && renderPasses == []
      ensures modelUBOList == [] && commandPool == NullHandle && descriptorPool == NullHandle
    {
      this.dev := dev;
      this.blankModelDefine := blankModelDefine;
      base := new RenderBase(dev);
      renderTargets, backupTargets := [], [];
      backupExtent := Extent2D(0, 0);
      commandPool, commandBuffers, descriptorPool := NullHandle, [], NullHandle;
      renderPasses := [];
      currentCommandBuffer := NullHandle;
      modelUBOList := [];
    }

    /**
     * Backup target, render targets, command buffers, descriptor pool,
     * viewport, render passes, in that order. A command-pool or
     * command-buffer failure aborts it there.
     */
    method Initialize() returns (r: Result<(), InitError>)
      requires dev.Valid() && base.Valid()
      modifies this`backupTargets, this`backupExtent, this`renderTargets, this`commandPool, this`commandBuffers
      modifies this`descriptorPool, this`renderPasses, base`viewport, base`scissor
      modifies dev`nextHandle, dev`log, dev`freeCommandBuffers
      ensures dev.Valid()
      ensures var n := |dev.swapchainImages|;
              r.Ok? <==> dev.commandPoolCreatable && n <= old(dev.freeCommandBuffers)
      ensures !dev.commandPoolCreatable ==> r == Err(CommandPoolCreationFailed)
      ensures dev.commandPoolCreatable && old(dev.freeCommandBuffers) < |dev.swapchainImages| ==>
                r == Err(CommandBufferAllocationFailed)
      ensures r.Err? ==>
                dev.log == old(dev.log) + BackupEvents(old(dev.nextHandle), dev.swapchainExtent)
                           + CommandSetupEvents(dev.commandPoolCreatable, old(dev.nextHandle) + 3,
                                                |dev.swapchainImages|, old(dev.freeCommandBuffers))
      ensures r.Ok? ==>
                var h, n := old(dev.nextHandle), |dev.swapchainImages|;
                && Valid()
                && backupTargets == [BackupTarget(h)]
                && commandPool == h + 3 && commandBuffers == seq(n, k => h + 4 + k) && descriptorPool == h + 4 + n
                && dev.freeCommandBuffers == old(dev.freeCommandBuffers) - n
                && dev.log == old(dev.log) + InitEvents(h, dev.swapchainExtent, n)
    {
      ghost var h, n, e := dev.nextHandle, |dev.swapchainImages|, dev.swapchainExtent;
      ghost var free := dev.freeCommandBuffers;
      SetupTargets();
      ghost var afterBackup := dev.log;
      var cmd := SetupCommandBuffer();
      ghost var afterCommands := dev.log;
      assert afterCommands == afterBackup + CommandSetupEvents(dev.commandPoolCreatable, h + 3, n, free);
      if cmd.Err? {
        return Err(cmd.error);
      }
      assert commandBuffers == seq(n, k => h + 4 + k);
      FinishInitialize();
      AppendAssociates(old(dev.log), BackupEvents(h, e), CommandSetupEvents(true, h + 3, n, n), FinishEvents(h + 4 + n));
      r := Ok(());
    }

    /** The first steps of initialize: a one-entry backup list holding the backup target, then the render targets. */
    method SetupTargets()
      requires dev.Valid()
      modifies this`backupTargets, this`backupExtent, this`renderTargets, dev`nextHandle, dev`log
      ensures dev.Valid()
      ensures backupTargets == [BackupTarget(old(dev.nextHandle))] && backupExtent == dev.swapchainExtent
      ensures TargetsMatch(renderTargets, dev.swapchainImages, dev.swapchainImageViews, dev.swapchainImageFormat)
      ensures dev.nextHandle == old(dev.nextHandle) + 3
      ensures dev.log == old(dev.log) + BackupEvents(old(dev.nextHandle), dev.swapchainExtent)
    {
      backupTargets := Resize(backupTargets, 1, NullAttachment);
      SetupBackupBuffer();
      SetupRenderTargets();
    }

    /** The rest of initialize once the command buffers exist: descriptor pool, viewport, render passes. */
    method FinishInitialize()
      requires dev.Valid() && base.Valid()
      requires |backupTargets| == 1 && backupTargets[0].format == BackupFormat
      requires backupTargets[0].layout == ColorAttachmentOptimal && backupExtent == dev.swapchainExtent
      requires BackupIssued()
      requires TargetsMatch(renderTargets, dev.swapchainImages, dev.swapchainImageViews, dev.swapchainImageFormat)
      modifies this`descriptorPool, this`renderPasses, base`viewport, base`scissor, dev`nextHandle, dev`log
      ensures Valid()
      ensures descriptorPool == old(dev.nextHandle) && dev.nextHandle == descriptorPool + 1
      ensures dev.log == old(dev.log) + FinishEvents(descriptorPool)
    {
      SetupDescriptorPool();
      SetViewport();
      SetupRenderpass();
    }

    /** Render target i wraps swapchain image i; the new list replaces the old one. */
    method SetupRenderTargets()
      requires dev.Valid()
      modifies this`renderTargets
      ensures TargetsMatch(renderTargets, dev.swapchainImages, dev.swapchainImageViews, dev.swapchainImageFormat)
    {
      var n := |dev.swapchainImages|;
      var targets := seq(n, _ => NullAttachment);
      for i := 0 to n
        invariant |targets| == n
        invariant forall k | 0 <= k < i ::
                    targets[k] == ImageAttachment(dev.swapchainImages[k], NullHandle, dev.swapchainImageViews[k],
                                                  dev.swapchainImageFormat, PresentSrc)
      {
        targets := targets[i := ImageAttachment(dev.swapchainImages[i], NullHandle, dev.swapchainImageViews[i],
                                                dev.swapchainImageFormat, PresentSrc)];
      }
      renderTargets := targets;
    }

    /**
     * One command pool, then one primary command buffer per swapchain image;
     * either failure is an error.
     */
    method SetupCommandBuffer() returns (r: Result<(), InitError>)
      requires dev.Valid()
      modifies dev`nextHandle, dev`log, dev`freeCommandBuffers, this`commandPool, this`commandBuffers
      ensures dev.Valid()
      ensures var n := |dev.swapchainImages|;
              r.Ok? <==> dev.commandPoolCreatable && n <= old(dev.freeCommandBuffers)
      ensures !dev.commandPoolCreatable ==> r == Err(CommandPoolCreationFailed)
      ensures dev.commandPoolCreatable && old(dev.freeCommandBuffers) < |dev.swapchainImages| ==>
                r == Err(CommandBufferAllocationFailed)
      ensures dev.log == old(dev.log) + CommandSetupEvents(dev.commandPoolCreatable, old(dev.nextHandle),
                                                           |dev.swapchainImages|, old(dev.freeCommandBuffers))
      ensures r.Ok? ==>
                var h, n := old(dev.nextHandle), |dev.swapchainImages|;
                && commandPool == h && commandBuffers == seq(n, k => h + 1 + k)
                && dev.nextHandle == h + 1 + n && dev.freeCommandBuffers == old(dev.freeCommandBuffers) - n
    {
      var pool := dev.CreateCommandPool();
      if pool.None? {
        return Err(CommandPoolCreationFailed);
      }
      commandPool := pool.value;
      var n := |dev.swapchainImages|;
      commandBuffers := Resize(commandBuffers, n, NullHandle);
      var i := 0;
      while i < n
        modifies dev`nextHandle, dev`log, dev`freeCommandBuffers, this`commandBuffers
        invariant 0 <= i <= n && |commandBuffers| == n
        invariant i <= old(dev.freeCommandBuffers) && dev.freeCommandBuffers == old(dev.freeCommandBuffers) - i
        invariant dev.nextHandle == commandPool + 1 + i && dev.Valid()
        invariant forall k | 0 <= k < i :: commandBuffers[k] == commandPool + 1 + k
        invariant dev.log == old(dev.log) + [CommandPoolCreated(commandPool)]
                             + CommandBufferEvents(commandPool, commandPool + 1, i)
      {
        var buffer := dev.AllocateCommandBuffer(commandPool);
        assert CommandBufferEvents(commandPool, commandPool + 1, i + 1)
               == CommandBufferEvents(commandPool, commandPool + 1, i) + [CommandBufferAllocated(commandPool, commandPool + 1 + i)];
        if buffer.None? {
          assert i == old(dev.freeCommandBuffers) < n;
          return Err(CommandBufferAllocationFailed);
        }
        commandBuffers := commandBuffers[i := buffer.value];
        i := i + 1;
      }
      var first := commandPool + 1;
      assert commandBuffers == seq(n, k => first + k);
      r := Ok(());
    }

    /** The shared descriptor pool, with the fixed sizes and four sets. */
    method SetupDescriptorPool()
      modifies dev`nextHandle, dev`log, this`descriptorPool
      ensures descriptorPool == old(dev.nextHandle) && dev.nextHandle == descriptorPool + 1
      ensures dev.log == old(dev.log) + [DescriptorPoolCreated(descriptorPool, DescriptorPoolSizes, DescriptorPoolMaxSets)]
    {
      descriptorPool := dev.CreateDescriptorPool(DescriptorPoolSizes, DescriptorPoolMaxSets);
    }

    /** Backup target 0: an RGBA8 colour attachment of the swapchain's extent, with its image, memory and view. */
    method SetupBackupBuffer()
      requires |backupTargets| >= 1 && dev.Valid()
      modifies this`backupTargets, this`backupExtent, dev`nextHandle, dev`log
      ensures dev.Valid()
      ensures backupTargets == old(backupTargets)[0 := BackupTarget(old(dev.nextHandle))]
      ensures backupExtent == dev.swapchainExtent
      ensures dev.nextHandle == old(dev.nextHandle) + 3
      ensures dev.log == old(dev.log) + BackupEvents(old(dev.nextHandle), dev.swapchainExtent)
    {
      backupTargets := backupTargets[0 := ImageAttachment(NullHandle, NullHandle, NullHandle, BackupFormat,
                                                          ColorAttachmentOptimal)];
      var image, mem := dev.CreateImage(dev.swapchainExtent.width, dev.swapchainExtent.height, BackupFormat, 1, 1);
      backupTargets := backupTargets[0 := backupTargets[0].(image := image, mem := mem)];
      var view := dev.CreateImageView(image, BackupFormat, View2D, 1, 1);
      backupTargets := backupTargets[0 := backupTargets[0].(view := view)];
      backupExtent := dev.swapchainExtent;
    }

    /** Viewport (0, 0, w, h, depth 0..1) and scissor (0, 0, w, h) for the swapchain extent (w, h). */
    method SetViewport()
      modifies base`viewport, base`scissor
      ensures base.viewport == Viewport(0, 0, dev.swapchainExtent.width, dev.swapchainExtent.height, 0, 1)
      ensures base.scissor.offsetX == 0 && base.scissor.offsetY == 0 && base.scissor.extent == dev.swapchainExtent
    {
      var width, height := dev.swapchainExtent.width, dev.swapchainExtent.height;
      base.viewport := Viewport(0, 0, width, height, 0, 1);
      base.scissor := Rect2D(0, 0, Extent2D(width, height));
    }

    /** Both passes, main camera first: it draws into the backup targets; the UI pass into the swapchain targets. */
    method SetupRenderpass()
      modifies this`renderPasses, dev`log
      ensures renderPasses == PassOrder && renderPasses[MainCameraSlot] == MainCameraPass
      ensures renderPasses[UIOverlaySlot] == UIOverlayPass
      ensures dev.log == old(dev.log) + PassInitEvents
    {
      renderPasses := [MainCameraPass, UIOverlayPass];
      dev.Call(PassInitialized(renderPasses[MainCameraSlot], BackupTargetList, None));
      dev.Call(PassInitialized(renderPasses[UIOverlaySlot], SwapchainTargetList, Some(0)));
    }

    /**
     * The recreation callback: release the old backup target, rebuild it and
     * the render targets and viewport for the new swapchain, then tell every
     * pass in list order. Command buffers and pools are left as they are.
     */
    method UpdateAfterSwapchainRecreate()
      requires dev.Valid() && base.Valid() && |backupTargets| == 1 && renderPasses == PassOrder
      requires backupTargets[0].format == BackupFormat && backupTargets[0].layout == ColorAttachmentOptimal
      requires BackupIssued()
      modifies this`backupTargets, this`backupExtent, this`renderTargets, base`viewport, base`scissor
      modifies dev`nextHandle, dev`log
      ensures Valid()
      ensures backupTargets == [BackupTarget(old(dev.nextHandle))]
      ensures backupTargets[0].image != old(backupTargets[0].image) && backupTargets[0].mem != old(backupTargets[0].mem)
      ensures backupTargets[0].view != old(backupTargets[0].view)
      ensures dev.nextHandle == old(dev.nextHandle) + 3
      ensures dev.log == old(dev.log) + RecreateEvents(old(backupTargets[0]), old(dev.nextHandle), dev.swapchainExtent,
                                                       renderPasses)
      ensures commandPool == old(commandPool) && commandBuffers == old(commandBuffers)
      ensures descriptorPool == old(descriptorPool)
    {
      ghost var prior := backupTargets[0];
      ReleaseBackupBuffer();
      SetupBackupBuffer();
      SetupRenderTargets();
      SetViewport();
      NotifyPassesRecreated();
      AppendAssociates(old(dev.log), [ImageDestroyed(prior.image), ViewDestroyed(prior.view), MemoryFreed(prior.mem)],
                       BackupEvents(old(dev.nextHandle), dev.swapchainExtent), PassRecreatedEvents(renderPasses));
    }

    /** The old backup target's image, view and memory are released, in that order. */
    method ReleaseBackupBuffer()
      requires |backupTargets| == 1
      modifies dev`log
      ensures dev.log == old(dev.log) + [ImageDestroyed(backupTargets[0].image), ViewDestroyed(backupTargets[0].view),
                                         MemoryFreed(backupTargets[0].mem)]
    {
      dev.Call(ImageDestroyed(backupTargets[0].image));
      dev.Call(ViewDestroyed(backupTargets[0].view));
      dev.Call(MemoryFreed(backupTargets[0].mem));
    }

    /** Every pass is told of the recreation, in list order. */
    method NotifyPassesRecreated()
      modifies dev`log
      ensures dev.log == old(dev.log) + PassRecreatedEvents(renderPasses)
    {
      for i := 0 to |renderPasses|
        invariant dev.log == old(dev.log) + PassRecreatedEvents(renderPasses[..i])
      {
        dev.Call(PassRecreated(renderPasses[i]));
        assert PassRecreatedEvents(renderPasses[..i + 1]) == PassRecreatedEvents(renderPasses[..i]) + [PassRecreated(renderPasses[i])];
      }
      assert renderPasses[..|renderPasses|] == renderPasses;
    }

    /** The surface tells the context it is out of date: the context rebuilds its swapchain and calls back. */
    method Recreate(status: SurfaceStatus) returns (ghost events: seq<Event>)
      requires status.SurfaceOutOfDate? && Valid()
      modifies this`backupTargets, this`backupExtent, this`renderTargets, base`viewport, base`scissor
      modifies dev`nextHandle, dev`log, dev`swapchainImages, dev`swapchainImageViews, dev`swapchainImageFormat
      modifies dev`swapchainExtent
      ensures Valid() && Quiet(events) && dev.log == old(dev.log) + events
      ensures events == [SwapchainRebuilt(status.imageCount, status.format, status.extent)]
                        + RecreateEvents(old(backupTargets[0]), old(dev.nextHandle) + 2 * status.imageCount,
                                         status.extent, renderPasses)
      ensures Surface() == AfterSurface(status, old(Surface()))
      ensures dev.swapchainExtent == status.extent && |dev.swapchainImages| == status.imageCount
      ensures commandBuffers == old(commandBuffers)
      ensures backupTargets[0].image != old(backupTargets[0].image) && backupTargets[0].mem != old(backupTargets[0].mem)
      ensures backupTargets[0].view != old(backupTargets[0].view)
      ensures forall k, j | 0 <= k < |renderTargets| && 0 <= j < |old(renderTargets)| ::
                renderTargets[k].image != old(renderTargets)[j].image && renderTargets[k].view != old(renderTargets)[j].view
    {
      ghost var before := dev.log;
      ghost var oldBackup := backupTargets[0];
      dev.RebuildSwapchain(status.imageCount, status.format, status.extent);
      ghost var h := dev.nextHandle;
      UpdateAfterSwapchainRecreate();
      events := [SwapchainRebuilt(status.imageCount, status.format, status.extent)]
                + RecreateEvents(oldBackup, h, dev.swapchainExtent, renderPasses);
      RecreateIsQuiet(oldBackup, h, dev.swapchainExtent, renderPasses,
                      SwapchainRebuilt(status.imageCount, status.format, status.extent));
    }

    /**
     * One frame. The acquire may find the surface out of date and recreate;
     * on NoImage the frame stops there. Otherwise command buffer i is reset,
     * begun, recorded by the main pass (target 0) and the UI pass (target i),
     * ended, submitted, and image i presented; the present may recreate too.
     */
    method Draw(acquire: SurfaceStatus, index: nat, present: SurfaceStatus) returns (ghost frame: FrameLog)
      requires Valid()
      requires index == NoImage || index < |commandBuffers|
      modifies this`backupTargets, this`backupExtent, this`renderTargets, this`currentCommandBuffer
      modifies base`viewport, base`scissor
      modifies dev`nextHandle, dev`log, dev`swapchainImages, dev`swapchainImageViews, dev`swapchainImageFormat
      modifies dev`swapchainExtent
      ensures Valid()
      ensures dev.log == old(dev.log) + FrameEvents(frame)
      ensures frame.index == index && Quiet(frame.acquireEvents) && Quiet(frame.presentEvents)
      ensures frame.acquireEvents == [] <==> acquire.SurfaceOk?
      ensures frame.acquireEvents == SurfaceEvents(acquire, old(Surface()), PassOrder)
      ensures index == NoImage ==>
                && frame.presentEvents == [] && currentCommandBuffer == old(currentCommandBuffer)
                && Surface() == AfterSurface(acquire, old(Surface()))
      ensures index != NoImage ==>
                && frame.buffer == commandBuffers[index] && currentCommandBuffer == commandBuffers[index]
                && (frame.presentEvents == [] <==> present.SurfaceOk?)
                && frame.presentEvents == SurfaceEvents(present, AfterSurface(acquire, old(Surface())), PassOrder)
                && Surface() == AfterSurface(present, AfterSurface(acquire, old(Surface())))
      ensures commandBuffers == old(commandBuffers)
    {
      ghost var before := dev.log;
      ghost var acquired := HandleSurface(acquire);
      frame := PresentFrame(acquired, index, present);
      FrameEventsSplit(before, frame);
    }

    /**
     * The rest of a frame once the acquire has answered (with the calls
     * `acquired`): nothing more on NoImage, otherwise record and present
     * image `index`, then handle the present's answer.
     */
    method PresentFrame(ghost acquired: seq<Event>, index: nat, present: SurfaceStatus) returns (ghost frame: FrameLog)
      requires Valid()
      requires index == NoImage || index < |commandBuffers|
      modifies this`backupTargets, this`backupExtent, this`renderTargets, this`currentCommandBuffer
      modifies base`viewport, base`scissor
      modifies dev`nextHandle, dev`log, dev`swapchainImages, dev`swapchainImageViews, dev`swapchainImageFormat
      modifies dev`swapchainExtent
      ensures Valid() && Quiet(frame.presentEvents)
      ensures frame.acquireEvents == acquired && frame.index == index
      ensures dev.log == old(dev.log) + (if index == NoImage then [] else RecordEvents(index, frame.buffer) + frame.presentEvents)
      ensures index == NoImage ==>
                && frame.presentEvents == [] && currentCommandBuffer == old(currentCommandBuffer) && Surface() == old(Surface())
      ensures index != NoImage ==>
                && frame.buffer == commandBuffers[index] && currentCommandBuffer == commandBuffers[index]
                && (frame.presentEvents == [] <==> present.SurfaceOk?)
                && frame.presentEvents == SurfaceEvents(present, old(Surface()), PassOrder)
                && Surface() == AfterSurface(present, old(Surface()))
      ensures commandBuffers == old(commandBuffers)
    {
      frame := FrameLog(acquired, index, NullHandle, []);
      if index != NoImage {
        ghost var recorded := dev.log + RecordEvents(index, commandBuffers[index]);
        RecordAndPresent(index);
        assert dev.log == recorded;
        ghost var presented := HandleSurface(present);
        frame := frame.(buffer := commandBuffers[index], presentEvents := presented);
      }
    }

    /** What an acquire or present does with the surface's answer: nothing, or a recreation. */
    method HandleSurface(status: SurfaceStatus) returns (ghost events: seq<Event>)
      requires Valid()
      modifies this`backupTargets, this`backupExtent, this`renderTargets, base`viewport, base`scissor
      modifies dev`nextHandle, dev`log, dev`swapchainImages, dev`swapchainImageViews, dev`swapchainImageFormat
      modifies dev`swapchainExtent
      ensures Valid() && Quiet(events) && dev.log == old(dev.log) + events
      ensures events == [] <==> status.SurfaceOk?
      ensures events == SurfaceEvents(status, old(Surface()), PassOrder)
      ensures Surface() == AfterSurface(status, old(Surface()))
      ensures status.SurfaceOk? ==>
                && renderTargets == old(renderTargets) && dev.swapchainImages == old(dev.swapchainImages)
                && dev.swapchainImageViews == old(dev.swapchainImageViews)
                && base.viewport == old(base.viewport) && base.scissor == old(base.scissor)
      ensures commandBuffers == old(commandBuffers)
    {
      events := [];
      if status.SurfaceOutOfDate? {
        events := Recreate(status);
      }
    }

    /** The part of a frame on acquired image `index`: record both passes into its buffer, submit, present. */
    method RecordAndPresent(index: nat)
      requires index < |commandBuffers| && renderPasses == PassOrder
      modifies this`currentCommandBuffer, dev`log
      ensures currentCommandBuffer == commandBuffers[index]
      ensures dev.log == old(dev.log) + RecordEvents(index, commandBuffers[index])
    {
      var buffer := commandBuffers[index];
      dev.Call(CommandBufferReset(buffer));
      dev.Call(CommandBufferBegun(buffer));
      currentCommandBuffer := buffer;
      dev.Call(PassDrawn(renderPasses[MainCameraSlot], 0, currentCommandBuffer));
      dev.Call(PassDrawn(renderPasses[UIOverlaySlot], index, currentCommandBuffer));
      dev.Call(CommandBufferEnded(buffer));
      dev.Call(CommandBufferSubmitted(buffer));
      dev.Call(ImagePresented(index));
    }

    /** The base tick (frame clock), then one frame. */
    method Tick(timer: TimerReads, acquire: SurfaceStatus, index: nat, present: SurfaceStatus)
      returns (ghost frame: FrameLog)
      requires Valid()
      requires index == NoImage || index < |commandBuffers|
      modifies this`backupTargets, this`backupExtent, this`renderTargets, this`currentCommandBuffer
      modifies base`viewport, base`scissor, base`frameCount, base`frameTimeTicks, base`lastFrameTime
      modifies base`currentFrameTime
      modifies dev`nextHandle, dev`log, dev`swapchainImages, dev`swapchainImageViews, dev`swapchainImageFormat
      modifies dev`swapchainExtent
      ensures Valid()
      ensures base.Clock() == TickClock(old(base.Clock()), timer)
      ensures dev.log == old(dev.log) + FrameEvents(frame)
      ensures frame.index == index && Quiet(frame.acquireEvents) && Quiet(frame.presentEvents)
      ensures frame.acquireEvents == SurfaceEvents(acquire, old(Surface()), PassOrder)
      ensures index == NoImage ==> frame.presentEvents == [] && Surface() == AfterSurface(acquire, old(Surface()))
      ensures index != NoImage ==>
                && frame.buffer == commandBuffers[index]
                && frame.presentEvents == SurfaceEvents(present, AfterSurface(acquire, old(Surface())), PassOrder)
                && Surface() == AfterSurface(present, AfterSurface(acquire, old(Surface())))
      ensures commandBuffers == old(commandBuffers)
    {
      base.Tick(timer);
      frame := Draw(acquire, index, present);
    }

    /**
     * Resizes the model-UBO list to the input's length, copies each input's
     * model matrix (the normal matrix is not copied), then uploads the list.
     */
    method UpdateRenderModelUBOList(input: seq<ModelDefine>)
      modifies this`modelUBOList, dev`log
      ensures |modelUBOList| == |input|
      ensures forall i | 0 <= i < |input| :: modelUBOList[i].model == input[i].model
      ensures forall i | 0 <= i < |input| && i < |old(modelUBOList)| :: modelUBOList[i].normal == old(modelUBOList)[i].normal
      ensures forall i | |old(modelUBOList)| <= i < |input| :: modelUBOList[i].normal == blankModelDefine.normal
      ensures dev.log == old(dev.log) + [ModelUBOsUploaded(|input|)]
    {
      modelUBOList := Resize(modelUBOList, |input|, blankModelDefine);
      for i := 0 to |input|
        modifies this`modelUBOList
        invariant |modelUBOList| == |input|
        invariant forall k | 0 <= k < i :: modelUBOList[k].model == input[k].model
        invariant forall k | i <= k < |input| :: modelUBOList[k] == Resize(old(modelUBOList), |input|, blankModelDefine)[k]
        invariant forall k | 0 <= k < |input| ::
                    modelUBOList[k].normal == Resize(old(modelUBOList), |input|, blankModelDefine)[k].normal
      {
        modelUBOList := modelUBOList[i := modelUBOList[i].(model := input[i].model)];
      }
      dev.Call(ModelUBOsUploaded(|modelUBOList|));
    }
  }
}
