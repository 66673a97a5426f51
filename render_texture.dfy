/**
 * Sampled textures (Texture2D and TextureCube): the per-format texel size
 * table, the mip-level count, the staging-buffer upload with its two layout
 * transitions, the sampler choice, and destruction.
 *
 * Each constructor of the source runs in two halves here: a factory method
 * (LoadTexture2D, LoadTextureCube) that decodes the first image and raises the
 * constructor's exceptions as `Err` values, and the class constructor, which
 * performs the upload once nothing can fail any more.
 */
module RenderTexture {
  import opened Wrappers
  import opened Vk

  datatype TextureError =
    | InvalidTextureLayerByteSize   // the format is not in the texel-size table
    | FailedToLoadTextureImage      // the image codec could not decode the file

  /** The formats the texel-size switch lists. */
  const TableFormats: set<Format> :=
    {R8G8B8Unorm, R8G8B8Srgb, R8G8B8A8Unorm, R8G8B8A8Srgb, R32G32Sfloat, R32G32B32Sfloat, R32G32B32A32Sfloat}

  /** A cube map has six faces, one image layer each. */
  const CubeFaceCount: nat := 6

  /**
   * Bytes per texel, by the constructors' format switch. Listed formats get
   * component count x component size; every other format is refused, even
   * where its size would be known.
   */
  function BytesPerTexel(f: Format): (r: Option<nat>)
    ensures r.Some? <==> f in TableFormats
    ensures r.Some? ==> r.value == ComponentCount(f) * ComponentBytes(f)
  {
    match f
    case R8G8B8Unorm => Some(3)
    case R8G8B8Srgb => Some(3)
    case R8G8B8A8Unorm => Some(4)
    case R8G8B8A8Srgb => Some(4)
    case R32G32Sfloat => Some(4 * 2)
    case R32G32B32Sfloat => Some(4 * 3)
    case R32G32B32A32Sfloat => Some(4 * 4)
    case _ => None
  }

  /** The byte size of one image layer; an unlisted format is the "invalid texture_layer_byte_size" error. */
  function LayerByteSize(f: Format, width: nat, height: nat): (r: Result<nat, TextureError>)
    ensures r.Ok? <==> f in TableFormats
    ensures r.Ok? ==> r.value == width * height * (ComponentCount(f) * ComponentBytes(f))
    ensures r.Err? ==> r.error == InvalidTextureLayerByteSize
  {
    match BytesPerTexel(f)
    case Some(b) => Ok(width * height * b)
    case None => Err(InvalidTextureLayerByteSize)
  }

  /**
   * The 2D constructor always decodes to four 8-bit channels and always
   * creates an R8G8B8A8_UNORM image, yet sizes its staging copy by the
   * requested format: the copy has the image's byte size exactly when the
   * requested format is one of the two R8G8B8A8 formats.
   */
  lemma Texture2DStagingMatchesImage(f: Format, width: Dim, height: Dim)
    requires f in TableFormats
    ensures LayerByteSize(f, width, height).value == width * height * 4
            <==> f == R8G8B8A8Unorm || f == R8G8B8A8Srgb
  {
    var area := width * height;
    assert area >= 1 by {
      assert width * height >= 1 * height;
    }
    assert LayerByteSize(f, width, height).value == area * BytesPerTexel(f).value;
  }

  function Pow2(k: nat): (r: nat)
    ensures r >= 1
  {
    if k == 0 then 1 else 2 * Pow2(k - 1)
  }

  /** Integer floor(log2(n)): the exponent of the largest power of two not above n. */
  function Log2Floor(n: nat): (r: nat)
    requires n >= 1
    ensures Pow2(r) <= n < Pow2(r + 1)
  {
    if n == 1 then 0 else 1 + Log2Floor(n / 2)
  }

  lemma {:induction false} Pow2Monotone(a: nat, b: nat)
    requires a <= b
    ensures Pow2(a) <= Pow2(b)
    decreases b - a
  {
    if a < b {
      Pow2Monotone(a, b - 1);
    }
  }

  /** Log2Floor is the only exponent that brackets n, so it is floor(log2(n)). */
  lemma Log2FloorUnique(n: nat, k: nat)
    requires n >= 1
    requires Pow2(k) <= n < Pow2(k + 1)
    ensures Log2Floor(n) == k
  {
    var r := Log2Floor(n);
    if r < k {
      Pow2Monotone(r + 1, k);
    } else if r > k {
      Pow2Monotone(k + 1, r);
    }
  }

  /**
   * Mip-level count: floor(log2(max(width, height))) + 1 with mipmapping,
   * 1 without. The source computes it in floating point; this is the integer
   * value it denotes.
   */
  function MipLevels(width: Dim, height: Dim, genMipmap: bool): (m: nat)
    ensures m >= 1
    ensures genMipmap ==> Pow2(m - 1) <= Max(width, height) < Pow2(m)
    ensures !genMipmap ==> m == 1
  {
    if genMipmap then Log2Floor(Max(width, height)) + 1 else 1
  }

  /** A 256x256 texture with mipmapping has nine mip levels. */
  lemma MipLevelsOf256()
    ensures MipLevels(256, 256, true) == 9
  {
    assert Pow2(8) == 256 && Pow2(9) == 512;
    Log2FloorUnique(256, 8);
  }

  /**
   * The sampler a 2D texture takes: the linear sampler when mipmaps were
   * generated, and the mipmap sampler with the texture's mip count otherwise.
   */
  function Texture2DSamplerKind(genMipmap: bool, mipLevels: nat): SamplerKind {
    if genMipmap then LinearSampler else MipmapSampler(mipLevels)
  }

  lemma Texture2DSamplerChoice(width: Dim, height: Dim, genMipmap: bool)
    ensures Texture2DSamplerKind(genMipmap, MipLevels(width, height, genMipmap)) == LinearSampler <==> genMipmap
    ensures !genMipmap ==> Texture2DSamplerKind(genMipmap, MipLevels(width, height, genMipmap)) == MipmapSampler(1)
  {
  }

  /** The handles one texture upload uses: the staging pair, the image, its memory, sampler and view. */
  datatype UploadHandles = UploadHandles(stagingBuffer: Handle, stagingMemory: Handle, image: Handle, memory: Handle,
                                         sampler: Handle, view: Handle)

  /** The calls the 2D constructor makes after decoding, in order. */
  function Texture2DUploadEvents(img: DecodedImage, genMipmap: bool, layerByteSize: nat, mipLevels: nat,
                                 h: UploadHandles): seq<Event>
  {
    [ BufferCreated(h.stagingBuffer, h.stagingMemory, layerByteSize),
      MappedWrite(h.stagingMemory, 0, layerByteSize),
      HostPixelsFreed,
      ImageCreated(h.image, h.memory, img.width, img.height, R8G8B8A8Unorm, 1, mipLevels),
      LayoutTransitioned(h.image, LayoutUndefined, TransferDstOptimal, 1, mipLevels),
      BufferCopiedToImage(h.stagingBuffer, h.image, img.width, img.height, 1),
      LayoutTransitioned(h.image, TransferDstOptimal, ShaderReadOnlyOptimal, 1, mipLevels),
      MemoryFreed(h.stagingMemory),
      BufferDestroyed(h.stagingBuffer) ]
    + (if genMipmap then [MipmapsGenerated(h.image, img.width, img.height, mipLevels)] else [])
    + [ SamplerAcquired(Texture2DSamplerKind(genMipmap, mipLevels), h.sampler),
        ViewCreated(h.view, h.image, R8G8B8A8Unorm, View2D, mipLevels, 1) ]
  }

  /** The staging writes of the cube constructor's face loop, for faces 0 .. n-1. */
  function CubeFaceEvents(paths: seq<string>, stagingMemory: Handle, layerByteSize: nat, n: nat): seq<Event>
    requires n <= |paths|
  {
    if n == 0 then []
    else CubeFaceEvents(paths, stagingMemory, layerByteSize, n - 1)
         + [ImageLoaded(paths[n - 1]), MappedWrite(stagingMemory, (n - 1) * layerByteSize, layerByteSize), HostPixelsFreed]
  }

  /** The calls the cube constructor makes after decoding the first face, in order. */
  function TextureCubeUploadEvents(paths: seq<string>, face: DecodedImage, format: Format, layerByteSize: nat,
                                   mipLevels: nat, h: UploadHandles): seq<Event>
    requires |paths| == CubeFaceCount
  {
    [BufferCreated(h.stagingBuffer, h.stagingMemory, layerByteSize * CubeFaceCount)]
    + CubeFaceEvents(paths, h.stagingMemory, layerByteSize, CubeFaceCount)
    + [ ImageCreated(h.image, h.memory, face.width, face.height, format, CubeFaceCount, mipLevels),
        LayoutTransitioned(h.image, LayoutUndefined, TransferDstOptimal, CubeFaceCount, mipLevels),
        BufferCopiedToImage(h.stagingBuffer, h.image, face.width, face.height, CubeFaceCount),
        LayoutTransitioned(h.image, TransferDstOptimal, ShaderReadOnlyOptimal, CubeFaceCount, mipLevels),
        BufferDestroyed(h.stagingBuffer),
        MemoryFreed(h.stagingMemory),
        SamplerAcquired(CubeMapSampler(mipLevels), h.sampler),
        ViewCreated(h.view, h.image, format, ViewCube, mipLevels, CubeFaceCount) ]
  }

  /** The calls either destructor makes: view, then image, then memory. */
  function DestroyEvents(view: Handle, image: Handle, memory: Handle): seq<Event> {
    [ViewDestroyed(view), ImageDestroyed(image), MemoryFreed(memory)]
  }

  /**
   * Face i is decoded and written at offset i x layer size, one layer long,
   * so the faces fill the staging buffer back to back.
   */
  lemma {:induction false} CubeFaceWrites(paths: seq<string>, mem: Handle, layerByteSize: nat, n: nat, i: nat)
    requires n <= |paths| && i < n
    ensures |CubeFaceEvents(paths, mem, layerByteSize, n)| == 3 * n
    ensures CubeFaceEvents(paths, mem, layerByteSize, n)[3 * i] == ImageLoaded(paths[i])
    ensures CubeFaceEvents(paths, mem, layerByteSize, n)[3 * i + 1] == MappedWrite(mem, i * layerByteSize, layerByteSize)
  {
    if i < n - 1 {
      CubeFaceWrites(paths, mem, layerByteSize, n - 1, i);
    } else if n > 1 {
      CubeFaceWrites(paths, mem, layerByteSize, n - 1, 0);
    }
  }

  /**
   * One step of the image-layout state machine for `image`: a transition
   * must start from the current layout, and a buffer-to-image copy needs the
   * image in TRANSFER_DST. None marks a step the API does not allow.
   */
  function StepLayout(e: Event, image: Handle, current: ImageLayout): Option<ImageLayout> {
    match e
    case LayoutTransitioned(img, from, to, _, _) =>
      if img != image then Some(current) else if from == current then Some(to) else None
    case BufferCopiedToImage(_, img, _, _, _) =>
      if img != image || current == TransferDstOptimal then Some(current) else None
    case _ => Some(current)
  }

  /** Replays a call sequence through the layout state machine of one image. */
  function LayoutAfter(events: seq<Event>, image: Handle, start: ImageLayout): Option<ImageLayout>
    decreases |events|
  {
    if events == [] then Some(start)
    else match StepLayout(events[0], image, start)
      case None => None
      case Some(next) => LayoutAfter(events[1..], image, next)
  }

  /** Replaying a concatenation replays its halves in turn. */
  lemma {:induction false} LayoutAfterAppend(a: seq<Event>, b: seq<Event>, image: Handle, start: ImageLayout)
    ensures LayoutAfter(a + b, image, start)
            == match LayoutAfter(a, image, start)
               case None => None
               case Some(mid) => LayoutAfter(b, image, mid)
    decreases |a|
  {
    if a != [] {
      assert (a + b)[0] == a[0];
      assert (a + b)[1..] == a[1..] + b;
      match StepLayout(a[0], image, start)
      case None =>
      case Some(next) => LayoutAfterAppend(a[1..], b, image, next);
    } else {
      assert a + b == b;
    }
  }

  /** Calls that never touch an image layout. */
  ghost predicate LayoutNeutral(events: seq<Event>) {
    forall k | 0 <= k < |events| :: !events[k].LayoutTransitioned? && !events[k].BufferCopiedToImage?
  }

  lemma {:induction false} LayoutAfterNeutral(events: seq<Event>, image: Handle, start: ImageLayout)
    requires LayoutNeutral(events)
    ensures LayoutAfter(events, image, start) == Some(start)
    decreases |events|
  {
    if events != [] {
      assert StepLayout(events[0], image, start) == Some(start);
      LayoutAfterNeutral(events[1..], image, start);
    }
  }

  /**
   * Shared shape of both uploads: from UNDEFINED the image goes to
   * TRANSFER_DST, is copied into, and ends in SHADER_READ_ONLY; from any other
   * starting layout the first transition is not allowed.
   */
  lemma {:induction false} UploadLayoutChain(pre: seq<Event>, create: Event, post: seq<Event>, image: Handle,
                                             buffer: Handle, w: nat, h: nat, layers: nat, mips: nat, start: ImageLayout)
    requires LayoutNeutral(pre + [create]) && LayoutNeutral(post)
    ensures LayoutAfter(pre + [create] + [ LayoutTransitioned(image, LayoutUndefined, TransferDstOptimal, layers, mips),
                                           BufferCopiedToImage(buffer, image, w, h, layers),
                                           LayoutTransitioned(image, TransferDstOptimal, ShaderReadOnlyOptimal, layers, mips) ]
                        + post, image, start)
            == if start == LayoutUndefined then Some(ShaderReadOnlyOptimal) else None
  {
    var chain := [ LayoutTransitioned(image, LayoutUndefined, TransferDstOptimal, layers, mips),
                   BufferCopiedToImage(buffer, image, w, h, layers),
                   LayoutTransitioned(image, TransferDstOptimal, ShaderReadOnlyOptimal, layers, mips) ];
    LayoutAfterAppend(pre + [create] + chain, post, image, start);
    LayoutAfterAppend(pre + [create], chain, image, start);
    LayoutAfterNeutral(pre + [create], image, start);
    LayoutAfterNeutral(post, image, ShaderReadOnlyOptimal);
    TransferChain(chain, start);
  }

  /** The transition, copy, transition triple in isolation. */
  lemma TransferChain(chain: seq<Event>, start: ImageLayout)
    requires |chain| == 3
    requires chain[0].LayoutTransitioned? && chain[0].from == LayoutUndefined && chain[0].to == TransferDstOptimal
    requires chain[1].BufferCopiedToImage? && chain[1].image == chain[0].image
    requires chain[2].LayoutTransitioned? && chain[2].image == chain[0].image
    requires chain[2].from == TransferDstOptimal && chain[2].to == ShaderReadOnlyOptimal
    ensures LayoutAfter(chain, chain[0].image, start)
            == if start == LayoutUndefined then Some(ShaderReadOnlyOptimal) else None
  {
    var image := chain[0].image;
    if start == LayoutUndefined {
      assert LayoutAfter(chain[3..], image, ShaderReadOnlyOptimal) == Some(ShaderReadOnlyOptimal);
      assert chain[2..][1..] == chain[3..];
      assert LayoutAfter(chain[2..], image, TransferDstOptimal) == Some(ShaderReadOnlyOptimal);
      assert chain[1..][1..] == chain[2..];
      assert LayoutAfter(chain[1..], image, TransferDstOptimal) == Some(ShaderReadOnlyOptimal);
    }
  }

  /** The 2D upload takes its image from UNDEFINED to SHADER_READ_ONLY and allows no other start. */
  lemma Texture2DLayoutChain(img: DecodedImage, genMipmap: bool, layerByteSize: nat, mipLevels: nat,
                             h: UploadHandles, start: ImageLayout)
    ensures LayoutAfter(Texture2DUploadEvents(img, genMipmap, layerByteSize, mipLevels, h), h.image, start)
            == if start == LayoutUndefined then Some(ShaderReadOnlyOptimal) else None
  {
    var events := Texture2DUploadEvents(img, genMipmap, layerByteSize, mipLevels, h);
    assert |events| >= 9;
    assert events[4] == LayoutTransitioned(h.image, LayoutUndefined, TransferDstOptimal, 1, mipLevels);
    assert events[5] == BufferCopiedToImage(h.stagingBuffer, h.image, img.width, img.height, 1);
    assert events[6] == LayoutTransitioned(h.image, TransferDstOptimal, ShaderReadOnlyOptimal, 1, mipLevels);
    var pre := events[..3];
    var post := events[7..];
    assert events == pre + [events[3]] + events[4..7] + post;
    assert events[4..7] == [ LayoutTransitioned(h.image, LayoutUndefined, TransferDstOptimal, 1, mipLevels),
                             BufferCopiedToImage(h.stagingBuffer, h.image, img.width, img.height, 1),
                             LayoutTransitioned(h.image, TransferDstOptimal, ShaderReadOnlyOptimal, 1, mipLevels) ];
    assert LayoutNeutral(pre + [events[3]]);
    assert LayoutNeutral(post);
    UploadLayoutChain(pre, events[3], post, h.image, h.stagingBuffer, img.width, img.height, 1, mipLevels, start);
  }

  /** The cube upload takes its image from UNDEFINED to SHADER_READ_ONLY and allows no other start. */
  lemma TextureCubeLayoutChain(paths: seq<string>, face: DecodedImage, format: Format, layerByteSize: nat,
                               mipLevels: nat, h: UploadHandles, start: ImageLayout)
    requires |paths| == CubeFaceCount
    ensures LayoutAfter(TextureCubeUploadEvents(paths, face, format, layerByteSize, mipLevels, h), h.image, start)
            == if start == LayoutUndefined then Some(ShaderReadOnlyOptimal) else None
  {
    var events := TextureCubeUploadEvents(paths, face, format, layerByteSize, mipLevels, h);
    var faces := CubeFaceEvents(paths, h.stagingMemory, layerByteSize, CubeFaceCount);
    CubeFacesNeutral(paths, h.stagingMemory, layerByteSize, CubeFaceCount);
    var n := 1 + |faces|;
    var pre := events[..n];
    assert pre == [events[0]] + faces;
    var post := events[n + 4..];
    assert events == pre + [events[n]] + events[n + 1..n + 4] + post;
    assert events[n + 1..n + 4]
           == [ LayoutTransitioned(h.image, LayoutUndefined, TransferDstOptimal, CubeFaceCount, mipLevels),
                BufferCopiedToImage(h.stagingBuffer, h.image, face.width, face.height, CubeFaceCount),
                LayoutTransitioned(h.image, TransferDstOptimal, ShaderReadOnlyOptimal, CubeFaceCount, mipLevels) ];
    assert LayoutNeutral(pre + [events[n]]);
    assert LayoutNeutral(post);
    UploadLayoutChain(pre, events[n], post, h.image, h.stagingBuffer, face.width, face.height, CubeFaceCount,
                      mipLevels, start);
  }

  lemma {:induction false} CubeFacesNeutral(paths: seq<string>, mem: Handle, layerByteSize: nat, n: nat)
    requires n <= |paths|
    ensures LayoutNeutral(CubeFaceEvents(paths, mem, layerByteSize, n))
  {
    if n > 0 {
      CubeFacesNeutral(paths, mem, layerByteSize, n - 1);
    }
  }

  /** In the mipmapped 2D upload the staging buffer and its memory are released after the copy and before any mip generation. */
  lemma Texture2DStagingReleasedBeforeMipmaps(img: DecodedImage, layerByteSize: nat, mipLevels: nat, h: UploadHandles)
    ensures var events := Texture2DUploadEvents(img, true, layerByteSize, mipLevels, h);
            && events[5] == BufferCopiedToImage(h.stagingBuffer, h.image, img.width, img.height, 1)
            && events[6] == LayoutTransitioned(h.image, TransferDstOptimal, ShaderReadOnlyOptimal, 1, mipLevels)
            && events[7] == MemoryFreed(h.stagingMemory)
            && events[8] == BufferDestroyed(h.stagingBuffer)
            && events[9] == MipmapsGenerated(h.image, img.width, img.height, mipLevels)
  {
  }

  /**
   * The 2D constructor's copy through a staging buffer: fill and release the
   * staging pair around creating the image and moving it from UNDEFINED
   * through TRANSFER_DST (where the copy lands) to SHADER_READ_ONLY.
   */
  method StageTexture2D(dev: Device, img: DecodedImage, layerByteSize: nat, mips: nat)
    returns (sb: Handle, sm: Handle, im: Handle, mem: Handle)
    modifies dev`nextHandle, dev`log
    ensures sb == old(dev.nextHandle) && sm == sb + 1 && im == sb + 2 && mem == sb + 3 && dev.nextHandle == sb + 4
    ensures dev.log == old(dev.log) + [ BufferCreated(sb, sm, layerByteSize), MappedWrite(sm, 0, layerByteSize),
                                        HostPixelsFreed,
                                        ImageCreated(im, mem, img.width, img.height, R8G8B8A8Unorm, 1, mips),
                                        LayoutTransitioned(im, LayoutUndefined, TransferDstOptimal, 1, mips),
                                        BufferCopiedToImage(sb, im, img.width, img.height, 1),
                                        LayoutTransitioned(im, TransferDstOptimal, ShaderReadOnlyOptimal, 1, mips),
                                        MemoryFreed(sm), BufferDestroyed(sb) ]
  {
    sb, sm := dev.CreateBuffer(layerByteSize);
    dev.Call(MappedWrite(sm, 0, layerByteSize));
    dev.Call(HostPixelsFreed);
    im, mem := dev.CreateImage(img.width, img.height, R8G8B8A8Unorm, 1, mips);
    dev.Call(LayoutTransitioned(im, LayoutUndefined, TransferDstOptimal, 1, mips));
    dev.Call(BufferCopiedToImage(sb, im, img.width, img.height, 1));
    dev.Call(LayoutTransitioned(im, TransferDstOptimal, ShaderReadOnlyOptimal, 1, mips));
    dev.Call(MemoryFreed(sm));
    dev.Call(BufferDestroyed(sb));
  }

  class Texture2D {
    const dev: Device
    var name: string
    var path: string
    var width: nat
    var height: nat
    var mipLevels: nat
    var image: Handle
    var memory: Handle
    var view: Handle
    var sampler: Handle
    var imageLayout: ImageLayout
    var info: DescriptorImageInfo
    /** The staging pair of the upload, released before the constructor returns. */
    ghost var stagingBuffer: Handle
    ghost var stagingMemory: Handle

    ghost function Handles(): UploadHandles
      reads this
    {
      UploadHandles(stagingBuffer, stagingMemory, image, memory, sampler, view)
    }

    /** The upload half of the source's constructor, run once the pixels decoded and the format is listed. */
    constructor (dev: Device, texturePath: string, textureName: string, genMipmap: bool, img: DecodedImage,
                 layerByteSize: nat)
      requires dev.Valid()
      modifies dev`nextHandle, dev`log, dev`samplers
      ensures dev.Valid() && this.dev == dev
      ensures name == textureName && path == texturePath
      ensures width == img.width && height == img.height && mipLevels == MipLevels(img.width, img.height, genMipmap)
      ensures old(dev.nextHandle) <= image && image != memory && old(dev.nextHandle) <= memory
      ensures old(dev.nextHandle) <= view < dev.nextHandle && view != image && view != memory
      ensures dev.samplers == old(dev.samplers)[Texture2DSamplerKind(genMipmap, mipLevels) := sampler]
      ensures Texture2DSamplerKind(genMipmap, mipLevels) in old(dev.samplers) ==>
                sampler == old(dev.samplers)[Texture2DSamplerKind(genMipmap, mipLevels)]
      ensures imageLayout == ShaderReadOnlyOptimal
      ensures info == DescriptorImageInfo(sampler, view, ShaderReadOnlyOptimal)
      ensures dev.log == old(dev.log) + Texture2DUploadEvents(img, genMipmap, layerByteSize, mipLevels, Handles())
    {
      this.dev := dev;
      name := textureName;
      path := texturePath;
      width := img.width;
      height := img.height;
      var mips := MipLevels(img.width, img.height, genMipmap);
      mipLevels := mips;
      ghost var log0 := dev.log;
      ghost var top := dev.nextHandle;

      var sb, sm, im, mem := StageTexture2D(dev, img, layerByteSize, mips);
      ghost var upload := [ BufferCreated(sb, sm, layerByteSize), MappedWrite(sm, 0, layerByteSize), HostPixelsFreed,
                            ImageCreated(im, mem, img.width, img.height, R8G8B8A8Unorm, 1, mips),
                            LayoutTransitioned(im, LayoutUndefined, TransferDstOptimal, 1, mips),
                            BufferCopiedToImage(sb, im, img.width, img.height, 1),
                            LayoutTransitioned(im, TransferDstOptimal, ShaderReadOnlyOptimal, 1, mips),
                            MemoryFreed(sm), BufferDestroyed(sb) ];
      assert dev.log == log0 + upload;
      ghost var mipmaps: seq<Event> := [];
      if genMipmap {
        dev.Call(MipmapsGenerated(im, img.width, img.height, mips));
        mipmaps := [MipmapsGenerated(im, img.width, img.height, mips)];
      }
      assert dev.log == log0 + upload + mipmaps;
      assert dev.nextHandle == top + 4 && dev.samplers == old(dev.samplers);
      assert dev.Valid();
      var s := dev.GetOrCreateSampler(Texture2DSamplerKind(genMipmap, mips));
      var v := dev.CreateImageView(im, R8G8B8A8Unorm, View2D, mips, 1);
      assert dev.log == log0 + upload + mipmaps + [SamplerAcquired(Texture2DSamplerKind(genMipmap, mips), s),
                                                    ViewCreated(v, im, R8G8B8A8Unorm, View2D, mips, 1)];

      stagingBuffer, stagingMemory := sb, sm;
      image, memory, sampler, view := im, mem, s, v;
      imageLayout := ShaderReadOnlyOptimal;
      info := DescriptorImageInfo(s, v, ShaderReadOnlyOptimal);
      new;
      assert Handles() == UploadHandles(sb, sm, im, mem, s, v);
      assert Texture2DUploadEvents(img, genMipmap, layerByteSize, mips, Handles())
             == upload + mipmaps + [SamplerAcquired(Texture2DSamplerKind(genMipmap, mips), s),
                                    ViewCreated(v, im, R8G8B8A8Unorm, View2D, mips, 1)];
    }

    /** The destructor: releases view, image and memory, in that order, and marks the layout UNDEFINED. */
    method Destroy()
      modifies this`imageLayout, dev`log
      ensures imageLayout == LayoutUndefined
      ensures dev.log == old(dev.log) + DestroyEvents(view, image, memory)
    {
      dev.Call(ViewDestroyed(view));
      dev.Call(ImageDestroyed(image));
      dev.Call(MemoryFreed(memory));
      imageLayout := LayoutUndefined;
    }
  }

  /**
   * The 2D constructor: decode the file, size the layer by the format table
   * (refusing an unlisted format before looking at the decode result), refuse
   * a failed decode, then upload.
   */
  method LoadTexture2D(dev: Device, texturePath: string, textureName: string, genMipmap: bool, imageFormat: Format)
    returns (r: Result<Texture2D, TextureError>)
    requires dev.Valid()
    modifies dev`nextHandle, dev`log, dev`samplers
    ensures dev.Valid()
    ensures r.Err? <==> imageFormat !in TableFormats || texturePath !in dev.decodable
    ensures r.Err? ==> r.error == if imageFormat !in TableFormats then InvalidTextureLayerByteSize
                                  else FailedToLoadTextureImage
    ensures r.Err? ==> && dev.log == old(dev.log) + [ImageLoaded(texturePath)]
                       && dev.nextHandle == old(dev.nextHandle) && dev.samplers == old(dev.samplers)
    ensures r.Ok? ==>
              var t := r.value;
              var img := dev.decodable[texturePath];
              && fresh(t) && t.dev == dev && t.name == textureName && t.path == texturePath
              && t.width == img.width && t.height == img.height
              && t.mipLevels == MipLevels(img.width, img.height, genMipmap)
              && t.imageLayout == ShaderReadOnlyOptimal
              && t.info == DescriptorImageInfo(t.sampler, t.view, ShaderReadOnlyOptimal)
              && Texture2DSamplerKind(genMipmap, t.mipLevels) in dev.samplers
              && dev.samplers[Texture2DSamplerKind(genMipmap, t.mipLevels)] == t.sampler
              && dev.log == old(dev.log) + [ImageLoaded(texturePath)]
                            + Texture2DUploadEvents(img, genMipmap, img.width * img.height * BytesPerTexel(imageFormat).value,
                                                    t.mipLevels, t.Handles())
  {
    var decoded := dev.LoadImage(texturePath);
    match decoded {
      case None =>
        if imageFormat !in TableFormats {
          return Err(InvalidTextureLayerByteSize);
        }
        return Err(FailedToLoadTextureImage);
      case Some(img) =>
        var size := LayerByteSize(imageFormat, img.width, img.height);
        if size.Err? {
          return Err(size.error);
        }
        var t := new Texture2D(dev, texturePath, textureName, genMipmap, img, size.value);
        return Ok(t);
    }
  }

  class TextureCube {
    const dev: Device
    var name: string
    var path: string
    var width: nat
    var height: nat
    var mipLevels: nat
    var image: Handle
    var memory: Handle
    var view: Handle
    var sampler: Handle
    var imageLayout: ImageLayout
    var info: DescriptorImageInfo
    /** The staging pair of the upload, released before the constructor returns. */
    ghost var stagingBuffer: Handle
    ghost var stagingMemory: Handle

    ghost function Handles(): UploadHandles
      reads this
    {
      UploadHandles(stagingBuffer, stagingMemory, image, memory, sampler, view)
    }

    /**
     * The upload half of the cube constructor: one staging buffer of six
     * layers, filled face by face at a running offset, copied into a
     * six-layer image.
     */
    constructor (dev: Device, paths: seq<string>, textureName: string, face: DecodedImage, format: Format,
                 layerByteSize: nat)
      requires dev.Valid() && |paths| == CubeFaceCount
      requires forall i | 0 <= i < CubeFaceCount :: dev.Decode(paths[i]) == Some(face)
      modifies dev`nextHandle, dev`log, dev`samplers
      ensures dev.Valid() && this.dev == dev
      ensures name == textureName && path == paths[0]
      ensures width == face.width && height == face.height && mipLevels == 1
      ensures old(dev.nextHandle) <= image && image != memory && old(dev.nextHandle) <= memory
      ensures old(dev.nextHandle) <= view < dev.nextHandle && view != image && view != memory
      ensures dev.samplers == old(dev.samplers)[CubeMapSampler(1) := sampler]
      ensures CubeMapSampler(1) in old(dev.samplers) ==> sampler == old(dev.samplers)[CubeMapSampler(1)]
      ensures imageLayout == ShaderReadOnlyOptimal
      ensures info == DescriptorImageInfo(sampler, view, ShaderReadOnlyOptimal)
      ensures dev.log == old(dev.log) + TextureCubeUploadEvents(paths, face, format, layerByteSize, 1, Handles())
    {
      this.dev := dev;
      name := textureName;
      path := paths[0];
      width := face.width;
      height := face.height;
      var mips := MipLevels(face.width, face.height, false);
      mipLevels := mips;

      var sb, sm := StageCubeFaces(dev, paths, face, layerByteSize);
      ghost var faces := CubeFaceEvents(paths, sm, layerByteSize, CubeFaceCount);
      ghost var afterFaces := dev.log;
      var im, mem := CopyCubeStaging(dev, sb, sm, face, format, mips);
      ghost var copy := [ ImageCreated(im, mem, face.width, face.height, format, CubeFaceCount, mips),
                          LayoutTransitioned(im, LayoutUndefined, TransferDstOptimal, CubeFaceCount, mips),
                          BufferCopiedToImage(sb, im, face.width, face.height, CubeFaceCount),
                          LayoutTransitioned(im, TransferDstOptimal, ShaderReadOnlyOptimal, CubeFaceCount, mips),
                          BufferDestroyed(sb), MemoryFreed(sm) ];
      assert dev.log == afterFaces + copy;
      assert dev.Valid();
      var s := dev.GetOrCreateSampler(CubeMapSampler(mips));
      var v := dev.CreateImageView(im, format, ViewCube, mips, CubeFaceCount);
      assert dev.log == afterFaces + copy + [SamplerAcquired(CubeMapSampler(mips), s),
                                             ViewCreated(v, im, format, ViewCube, mips, CubeFaceCount)];

      stagingBuffer, stagingMemory := sb, sm;
      image, memory, sampler, view := im, mem, s, v;
      imageLayout := ShaderReadOnlyOptimal;
      info := DescriptorImageInfo(s, v, ShaderReadOnlyOptimal);
      new;
      assert Handles() == UploadHandles(sb, sm, im, mem, s, v);
      ghost var tail := copy + [SamplerAcquired(CubeMapSampler(mips), s), ViewCreated(v, im, format, ViewCube, mips, CubeFaceCount)];
      assert TextureCubeUploadEvents(paths, face, format, layerByteSize, mips, Handles())
             == [BufferCreated(sb, sm, layerByteSize * CubeFaceCount)] + faces + tail;
      ghost var events := [BufferCreated(sb, sm, layerByteSize * CubeFaceCount)] + faces + tail;
      AppendAssociates(old(dev.log), [BufferCreated(sb, sm, layerByteSize * CubeFaceCount)], faces, tail);
      assert dev.log == old(dev.log) + events;
    }

    /** The destructor: releases view, image and memory, in that order, and marks the layout UNDEFINED. */
    method Destroy()
      modifies this`imageLayout, dev`log
      ensures imageLayout == LayoutUndefined
      ensures dev.log == old(dev.log) + DestroyEvents(view, image, memory)
    {
      dev.Call(ViewDestroyed(view));
      dev.Call(ImageDestroyed(image));
      dev.Call(MemoryFreed(memory));
      imageLayout := LayoutUndefined;
    }
  }

  /** A staging buffer of six layers, filled face by face. */
  method StageCubeFaces(dev: Device, paths: seq<string>, face: DecodedImage, layerByteSize: nat)
    returns (sb: Handle, sm: Handle)
    requires |paths| == CubeFaceCount
    requires forall i | 0 <= i < CubeFaceCount :: dev.Decode(paths[i]) == Some(face)
    modifies dev`nextHandle, dev`log
    ensures sb == old(dev.nextHandle) && sm == sb + 1 && dev.nextHandle == sb + 2
    ensures dev.log == old(dev.log) + [BufferCreated(sb, sm, layerByteSize * CubeFaceCount)]
                       + CubeFaceEvents(paths, sm, layerByteSize, CubeFaceCount)
  {
    sb, sm := dev.CreateBuffer(layerByteSize * CubeFaceCount);
    WriteCubeFaces(dev, paths, face, sm, layerByteSize);
  }

  /**
   * The six-layer image, moved to TRANSFER_DST, filled from the staging
   * buffer, moved to SHADER_READ_ONLY; then the staging pair is released.
   */
  method CopyCubeStaging(dev: Device, sb: Handle, sm: Handle, face: DecodedImage, format: Format, mips: nat)
    returns (im: Handle, mem: Handle)
    modifies dev`nextHandle, dev`log
    ensures im == old(dev.nextHandle) && mem == im + 1 && dev.nextHandle == im + 2
    ensures dev.log == old(dev.log) + [ ImageCreated(im, mem, face.width, face.height, format, CubeFaceCount, mips),
                                        LayoutTransitioned(im, LayoutUndefined, TransferDstOptimal, CubeFaceCount, mips),
                                        BufferCopiedToImage(sb, im, face.width, face.height, CubeFaceCount),
                                        LayoutTransitioned(im, TransferDstOptimal, ShaderReadOnlyOptimal, CubeFaceCount,
                                                           mips),
                                        BufferDestroyed(sb), MemoryFreed(sm) ]
  {
    im, mem := dev.CreateImage(face.width, face.height, format, CubeFaceCount, mips);
    dev.Call(LayoutTransitioned(im, LayoutUndefined, TransferDstOptimal, CubeFaceCount, mips));
    dev.Call(BufferCopiedToImage(sb, im, face.width, face.height, CubeFaceCount));
    dev.Call(LayoutTransitioned(im, TransferDstOptimal, ShaderReadOnlyOptimal, CubeFaceCount, mips));
    dev.Call(BufferDestroyed(sb));
    dev.Call(MemoryFreed(sm));
  }

  /**
   * The cube constructor's face loop: decode face i (which matches the first
   * face), copy it into the staging memory at a running offset of i layers,
   * and free the decoded pixels.
   */
  method WriteCubeFaces(dev: Device, paths: seq<string>, face: DecodedImage, stagingMemory: Handle, layerByteSize: nat)
    requires |paths| == CubeFaceCount
    requires forall i | 0 <= i < CubeFaceCount :: dev.Decode(paths[i]) == Some(face)
    modifies dev`log
    ensures dev.log == old(dev.log) + CubeFaceEvents(paths, stagingMemory, layerByteSize, CubeFaceCount)
  {
    var offset := 0;
    var i := 0;
    while i < CubeFaceCount
      invariant 0 <= i <= CubeFaceCount
      invariant offset == i * layerByteSize
      invariant dev.log == old(dev.log) + CubeFaceEvents(paths, stagingMemory, layerByteSize, i)
    {
      var pixels := dev.LoadImage(paths[i]);
      assert pixels == Some(face);
      dev.Call(MappedWrite(stagingMemory, offset, layerByteSize));
      dev.Call(HostPixelsFreed);
      offset := offset + layerByteSize;
      i := i + 1;
    }
  }

  /** Every face decodes to the first face's width, height and channel count. */
  ghost predicate FacesMatch(dev: Device, paths: seq<string>)
    reads dev
  {
    && |paths| == CubeFaceCount
    && (forall i | 0 <= i < CubeFaceCount :: paths[i] in dev.decodable)
    && (forall i | 0 <= i < CubeFaceCount :: dev.decodable[paths[i]] == dev.decodable[paths[0]])
  }

  /**
   * The cube constructor: it asserts six paths, no mipmapping and faces
   * matching the first; it refuses an unlisted format after decoding the
   * first face and has no check for a failed decode. The first face's
   * pixels are decoded once more by the face loop and never freed, so a
   * successful load logs seven decodes and six frees.
   */
  method LoadTextureCube(dev: Device, paths: seq<string>, textureName: string, genMipmap: bool, imageFormat: Format)
    returns (r: Result<TextureCube, TextureError>)
    requires dev.Valid()
    requires |paths| == CubeFaceCount && !genMipmap
    requires FacesMatch(dev, paths)
    modifies dev`nextHandle, dev`log, dev`samplers
    ensures dev.Valid()
    ensures r.Err? <==> imageFormat !in TableFormats
    ensures r.Err? ==> && r.error == InvalidTextureLayerByteSize
                       && dev.log == old(dev.log) + [ImageLoaded(paths[0])]
                       && dev.nextHandle == old(dev.nextHandle) && dev.samplers == old(dev.samplers)
    ensures r.Ok? ==>
              var t := r.value;
              var face := dev.decodable[paths[0]];
              var layer := face.width * face.height * BytesPerTexel(imageFormat).value;
              && fresh(t) && t.dev == dev && t.name == textureName && t.path == paths[0]
              && t.width == face.width && t.height == face.height && t.mipLevels == 1
              && t.imageLayout == ShaderReadOnlyOptimal
              && t.info == DescriptorImageInfo(t.sampler, t.view, ShaderReadOnlyOptimal)
              && CubeMapSampler(1) in dev.samplers && dev.samplers[CubeMapSampler(1)] == t.sampler
              && dev.log == old(dev.log) + [ImageLoaded(paths[0])]
                            + TextureCubeUploadEvents(paths, face, imageFormat, layer, 1, t.Handles())
  {
    var decoded := dev.LoadImage(paths[0]);
    var face := decoded.value;
    var size := LayerByteSize(imageFormat, face.width, face.height);
    if size.Err? {
      return Err(size.error);
    }
    var t := new TextureCube(dev, paths, textureName, face, imageFormat, size.value);
    return Ok(t);
  }
}
