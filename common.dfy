/** Failure-compatible wrappers for the source's error returns and exceptions. */
module Wrappers {
  datatype Option<+T> = None | Some(value: T)

  datatype Result<+T, +E> = Ok(value: T) | Err(error: E)
}

/**
 * The explicit graphics API as the renderer sees it: opaque handles, the
 * enumerations the core switches on, and a device context that hands out
 * fresh handles and records every call it receives, in order, in a ghost log.
 * The semantics of the calls (allocation, copies, command recording) belong to
 * the driver and are not modelled; only their order and their arguments are.
 */
module Vk {
  import opened Wrappers

  /** An opaque API object handle; 0 plays the part of VK_NULL_HANDLE. */
  type Handle = nat

  const NullHandle: Handle := 0

  const U16Modulus: nat := 0x1_0000
  const U32Modulus: nat := 0x1_0000_0000
  const U64Modulus: nat := 0x1_0000_0000_0000_0000

  /** A 16-bit unsigned value, as stored in an index stream. */
  type U16 = n: nat | n < 0x1_0000

  /** A positive image dimension, as the image codec reports it on success. */
  type Dim = n: nat | 1 <= n witness 1

  /** The pixel formats the core names, plus a few it does not handle. */
  datatype Format =
    | FormatUndefined
    | R8G8B8Unorm
    | R8G8B8Srgb
    | R8G8B8A8Unorm
    | R8G8B8A8Srgb
    | B8G8R8A8Unorm
    | B8G8R8A8Srgb
    | R16G16B16A16Sfloat
    | R32G32Sfloat
    | R32G32B32Sfloat
    | R32G32B32A32Sfloat
    | D32Sfloat

  /** Number of components of a texel of the format. */
  function ComponentCount(f: Format): nat {
    match f
    case FormatUndefined => 0
    case R8G8B8Unorm | R8G8B8Srgb => 3
    case R8G8B8A8Unorm | R8G8B8A8Srgb | B8G8R8A8Unorm | B8G8R8A8Srgb => 4
    case R16G16B16A16Sfloat => 4
    case R32G32Sfloat => 2
    case R32G32B32Sfloat => 3
    case R32G32B32A32Sfloat => 4
    case D32Sfloat => 1
  }

  /** Number of bytes of one component of the format. */
  function ComponentBytes(f: Format): nat {
    match f
    case FormatUndefined => 0
    case R8G8B8Unorm | R8G8B8Srgb | R8G8B8A8Unorm | R8G8B8A8Srgb | B8G8R8A8Unorm | B8G8R8A8Srgb => 1
    case R16G16B16A16Sfloat => 2
    case R32G32Sfloat | R32G32B32Sfloat | R32G32B32A32Sfloat | D32Sfloat => 4
  }

  datatype ImageLayout =
    | LayoutUndefined
    | TransferDstOptimal
    | ShaderReadOnlyOptimal
    | ColorAttachmentOptimal
    | PresentSrc

  datatype ImageViewType = View2D | ViewCube

  /** One renderable or sampleable surface: image, memory, view, format, layout. */
  datatype ImageAttachment = ImageAttachment(image: Handle, mem: Handle, view: Handle, format: Format, layout: ImageLayout)

  datatype Extent2D = Extent2D(width: nat, height: nat)

  /**
   * A viewport. The API's fields are floats; the core only ever stores
   * small integers in them, so they are integers here.
   */
  datatype Viewport = Viewport(x: int, y: int, width: int, height: int, minDepth: int, maxDepth: int)

  datatype Rect2D = Rect2D(offsetX: int, offsetY: int, extent: Extent2D)

  /** The sampler cache key: the sampler kind and, where it matters, the mip count. */
  datatype SamplerKind = LinearSampler | MipmapSampler(mipLevels: nat) | CubeMapSampler(mipLevels: nat)

  /** The sampler/view/layout triple a descriptor write reads from. */
  datatype DescriptorImageInfo = DescriptorImageInfo(sampler: Handle, imageView: Handle, imageLayout: ImageLayout)

  datatype DescriptorType = UniformBuffer | UniformBufferDynamic | InputAttachment | CombinedImageSampler

  datatype PoolSize = PoolSize(kind: DescriptorType, count: nat)

  /** What the image codec returns for a file it can decode (forced to four channels). */
  datatype DecodedImage = DecodedImage(width: Dim, height: Dim, channels: nat)

  /** The two render passes of the forward renderer; their bodies are outside the core. */
  datatype PassKind = MainCameraPass | UIOverlayPass

  /** Which of the renderer's attachment lists a pass is wired to (it holds a pointer to the list, not a copy). */
  datatype TargetList = BackupTargetList | SwapchainTargetList

  /** One call into the API, the image codec or a render pass, as recorded in the log. */
  datatype Event =
    | ImageLoaded(path: string)
    | HostPixelsFreed
    | BufferCreated(buffer: Handle, memory: Handle, size: nat)
    | MappedWrite(memory: Handle, offset: nat, size: nat)
    | ImageCreated(image: Handle, memory: Handle, width: nat, height: nat, format: Format, layers: nat, mipLevels: nat)
    | LayoutTransitioned(image: Handle, from: ImageLayout, to: ImageLayout, layers: nat, mipLevels: nat)
    | BufferCopiedToImage(buffer: Handle, image: Handle, width: nat, height: nat, layers: nat)
    | MipmapsGenerated(image: Handle, width: nat, height: nat, mipLevels: nat)
    | MemoryFreed(memory: Handle)
    | BufferDestroyed(buffer: Handle)
    | ImageDestroyed(image: Handle)
    | ViewCreated(view: Handle, image: Handle, format: Format, viewType: ImageViewType, mipLevels: nat, layers: nat)
    | ViewDestroyed(view: Handle)
    | SamplerAcquired(kind: SamplerKind, sampler: Handle)
    | CommandPoolCreated(pool: Handle)
    | CommandBufferAllocated(pool: Handle, buffer: Handle)
    | DescriptorPoolCreated(pool: Handle, sizes: seq<PoolSize>, maxSets: nat)
    | CommandBufferReset(buffer: Handle)
    | CommandBufferBegun(buffer: Handle)
    | CommandBufferEnded(buffer: Handle)
    | CommandBufferSubmitted(buffer: Handle)
    | ImagePresented(index: nat)
    | PassInitialized(pass: PassKind, targets: TargetList, inColorAttachment: Option<nat>)
    | PassDrawn(pass: PassKind, target: nat, buffer: Handle)
    | PassRecreated(pass: PassKind)
    | ModelUBOsUploaded(entries: nat)
    | SwapchainRebuilt(imageCount: nat, format: Format, extent: Extent2D)

  /**
   * The graphics context (the source's global context object), passed
   * explicitly. Every API call appends one event to `log`; every object the
   * driver creates gets the next unused handle. What the outside world
   * decides is held here as state: which files decode, whether command pools
   * and command buffers can still be allocated, and the current swapchain.
   */
  class Device {
    var nextHandle: Handle
    ghost var log: seq<Event>
    var samplers: map<SamplerKind, Handle>
    const decodable: map<string, DecodedImage>
    const commandPoolCreatable: bool
    var freeCommandBuffers: nat
    var swapchainImages: seq<Handle>
    var swapchainImageViews: seq<Handle>
    var swapchainImageFormat: Format
    var swapchainExtent: Extent2D

    ghost predicate Valid()
      reads this`nextHandle, this`swapchainImages, this`swapchainImageViews, this`samplers
    {
      && 1 <= nextHandle
      && |swapchainImages| == |swapchainImageViews|
      && (forall k | k in samplers :: 1 <= samplers[k] < nextHandle)
      && (forall k | 0 <= k < |swapchainImages| :: swapchainImages[k] < nextHandle && swapchainImageViews[k] < nextHandle)
    }

    constructor (decodable: map<string, DecodedImage>, commandPoolCreatable: bool, freeCommandBuffers: nat,
                 images: seq<Handle>, views: seq<Handle>, format: Format, extent: Extent2D)
      requires |images| == |views|
      ensures Valid() && log == [] && samplers == map[]
      ensures this.decodable == decodable && this.commandPoolCreatable == commandPoolCreatable
      ensures this.freeCommandBuffers == freeCommandBuffers
      ensures swapchainImages == images && swapchainImageViews == views
      ensures swapchainImageFormat == format && swapchainExtent == extent
    {
      var top := 1;
      var k := 0;
      while k < |images|
        invariant 0 <= k <= |images| && 1 <= top
        invariant forall j | 0 <= j < k :: images[j] < top && views[j] < top
      {
        top := Max(top, Max(images[k], views[k]) + 1);
        k := k + 1;
      }
      nextHandle := top;
      log := [];
      samplers := map[];
      this.decodable := decodable;
      this.commandPoolCreatable := commandPoolCreatable;
      this.freeCommandBuffers := freeCommandBuffers;
      swapchainImages := images;
      swapchainImageViews := views;
      swapchainImageFormat := format;
      swapchainExtent := extent;
    }

    /** The codec's answer for a path. */
    function Decode(path: string): Option<DecodedImage>
      reads this
    {
      if path in decodable then Some(decodable[path]) else None
    }

    /** Records a call that creates nothing. */
    method Call(e: Event)
      modifies this`log
      ensures log == old(log) + [e]
    {
      log := log + [e];
    }

    /** Hands out the next unused handle. */
    method NewHandle() returns (h: Handle)
      modifies this`nextHandle
      ensures h == old(nextHandle) && nextHandle == h + 1
    {
      h := nextHandle;
      nextHandle := nextHandle + 1;
    }

    /** The image codec: decodes a file, or reports that it cannot. */
    method LoadImage(path: string) returns (r: Option<DecodedImage>)
      modifies this`log
      ensures r == Decode(path)
      ensures log == old(log) + [ImageLoaded(path)]
    {
      r := Decode(path);
      Call(ImageLoaded(path));
    }

    method CreateBuffer(size: nat) returns (buffer: Handle, memory: Handle)
      modifies this`nextHandle, this`log
      ensures buffer == old(nextHandle) && memory == buffer + 1 && nextHandle == memory + 1
      ensures log == old(log) + [BufferCreated(buffer, memory, size)]
    {
      buffer := NewHandle();
      memory := NewHandle();
      Call(BufferCreated(buffer, memory, size));
    }

    method CreateImage(width: nat, height: nat, format: Format, layers: nat, mipLevels: nat)
      returns (image: Handle, memory: Handle)
      modifies this`nextHandle, this`log
      ensures image == old(nextHandle) && memory == image + 1 && nextHandle == memory + 1
      ensures log == old(log) + [ImageCreated(image, memory, width, height, format, layers, mipLevels)]
    {
      image := NewHandle();
      memory := NewHandle();
      Call(ImageCreated(image, memory, width, height, format, layers, mipLevels));
    }

    method CreateImageView(image: Handle, format: Format, viewType: ImageViewType, mipLevels: nat, layers: nat)
      returns (view: Handle)
      modifies this`nextHandle, this`log
      ensures view == old(nextHandle) && nextHandle == view + 1
      ensures log == old(log) + [ViewCreated(view, image, format, viewType, mipLevels, layers)]
    {
      view := NewHandle();
      Call(ViewCreated(view, image, format, viewType, mipLevels, layers));
    }

    /** The sampler cache: equal keys share one sampler; a new key creates one. */
    method GetOrCreateSampler(kind: SamplerKind) returns (sampler: Handle)
      requires Valid()
      modifies this`nextHandle, this`log, this`samplers
      ensures Valid()
      ensures kind in old(samplers) ==>
                sampler == old(samplers)[kind] && samplers == old(samplers) && nextHandle == old(nextHandle)
      ensures kind !in old(samplers) ==>
                sampler == old(nextHandle) && nextHandle == sampler + 1 && samplers == old(samplers)[kind := sampler]
      ensures log == old(log) + [SamplerAcquired(kind, sampler)]
    {
      if kind in samplers {
        sampler := samplers[kind];
      } else {
        sampler := NewHandle();
        samplers := samplers[kind := sampler];
      }
      Call(SamplerAcquired(kind, sampler));
    }

    /** Creates a command pool, which fails when the driver refuses it. */
    method CreateCommandPool() returns (r: Option<Handle>)
      modifies this`nextHandle, this`log
      ensures commandPoolCreatable ==> r == Some(old(nextHandle)) && nextHandle == old(nextHandle) + 1
      ensures commandPoolCreatable ==> log == old(log) + [CommandPoolCreated(r.value)]
      ensures !commandPoolCreatable ==> r == None && nextHandle == old(nextHandle) && log == old(log)
    {
      if commandPoolCreatable {
        var pool := NewHandle();
        Call(CommandPoolCreated(pool));
        r := Some(pool);
      } else {
        r := None;
      }
    }

    /** Allocates one primary command buffer; fails once the driver has none left. */
    method AllocateCommandBuffer(pool: Handle) returns (r: Option<Handle>)
      modifies this`nextHandle, this`log, this`freeCommandBuffers
      ensures old(freeCommandBuffers) > 0 ==>
                && r == Some(old(nextHandle)) && nextHandle == old(nextHandle) + 1
                && freeCommandBuffers == old(freeCommandBuffers) - 1
                && log == old(log) + [CommandBufferAllocated(pool, r.value)]
      ensures old(freeCommandBuffers) == 0 ==>
                && r == None && nextHandle == old(nextHandle)
                && freeCommandBuffers == 0 && log == old(log)
    {
      if freeCommandBuffers > 0 {
        var buffer := NewHandle();
        freeCommandBuffers := freeCommandBuffers - 1;
        Call(CommandBufferAllocated(pool, buffer));
        r := Some(buffer);
      } else {
        r := None;
      }
    }

    /**
     * The context's reaction to an out-of-date surface: a new swapchain of
     * `imageCount` images, each with a view, all with fresh handles.
     */
    method RebuildSwapchain(imageCount: nat, format: Format, extent: Extent2D)
      requires Valid()
      modifies this`nextHandle, this`log, this`swapchainImages, this`swapchainImageViews
      modifies this`swapchainImageFormat, this`swapchainExtent
      ensures Valid()
      ensures swapchainImages == seq(imageCount, k => old(nextHandle) + k)
      ensures swapchainImageViews == seq(imageCount, k => old(nextHandle) + imageCount + k)
      ensures nextHandle == old(nextHandle) + 2 * imageCount
      ensures swapchainImageFormat == format && swapchainExtent == extent
      ensures log == old(log) + [SwapchainRebuilt(imageCount, format, extent)]
    {
      var first := nextHandle;
      swapchainImages := seq(imageCount, k => first + k);
      swapchainImageViews := seq(imageCount, k => first + imageCount + k);
      nextHandle := nextHandle + 2 * imageCount;
      swapchainImageFormat := format;
      swapchainExtent := extent;
      Call(SwapchainRebuilt(imageCount, format, extent));
    }

    method CreateDescriptorPool(sizes: seq<PoolSize>, maxSets: nat) returns (pool: Handle)
      modifies this`nextHandle, this`log
      ensures pool == old(nextHandle) && nextHandle == pool + 1
      ensures log == old(log) + [DescriptorPoolCreated(pool, sizes, maxSets)]
    {
      pool := NewHandle();
      Call(DescriptorPoolCreated(pool, sizes, maxSets));
    }
  }

  function Max(a: nat, b: nat): nat {
    if a < b then b else a
  }

  /** Regrouping a log extended by three pieces. */
  lemma AppendAssociates(a: seq<Event>, b: seq<Event>, c: seq<Event>, d: seq<Event>)
    ensures a + (b + c + d) == a + b + c + d
  {
  }
}
