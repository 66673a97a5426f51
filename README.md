# exampleX renderer core, modelled in Dafny

This project models the core of the exampleX Vulkan renderer. It covers five
parts:

- **Textures** (`render_texture.dfy`, module `RenderTexture`). The 2D texture
  and the cube-map texture:
  - the format table that sizes an image layer;
  - the mip-level count;
  - the upload through a host-visible staging buffer (create, map and write,
    image creation, layout transitions, copy, staging release);
  - the sampler choice, the image view and the destructors.
- **The forward renderer** (`forward_render.dfy`, module `ForwardRendering`):
  - initialization: render targets, the backup colour target, a command pool
    with one command buffer per swapchain image, the descriptor pool, the
    render-pass list;
  - the per-frame draw: acquire, reset and record both passes, submit, present;
  - rebuilding the targets after the swapchain is recreated;
  - resizing the per-model uniform list.
- **The renderer base** (`render_base.dfy`, module `RenderFrame`). The default
  viewport and scissor, the 32-bit frame counter with its 64-bit timestamps,
  and the do-nothing scene hooks.
- **The GPU mesh** (`render_mesh.dfy`, module `MeshLayout`). The three vertex
  structs, the vertex-input binding and attribute tables derived from their
  sizes and offsets, and the defaults of a submesh and of a mesh.
- **Model loading** (`scene_model.dfy`, module `Scene`). An imported scene's
  node tree is walked in pre-order. Each mesh is flattened into one render
  mesh: three vertex streams, a 16-bit index stream, one submesh range per mesh.
  The load offsets each mesh's indices by the vertex count (the corrected index
  base, see ## Findings); the code as written uses the running index count,
  which is modelled beside it (`ProcessMeshSpec`).

The Vulkan device, the image decoder and the window surface cannot be seen
from the core. They are modelled by the `Device` class in `common.dfy`
(modules `Wrappers` and `Vk`):

- handles are fresh natural numbers: the device's validity places every sampler,
  swapchain image and swapchain view, and the renderer's validity places the
  backup target's image, memory and view, below the next handle to hand out;
- every device call appends one `Event` to a ghost log;
- the decoder is a map from path to decoded image;
- failures (command-pool creation, buffer allocation) are fields the caller sets.

The contracts of the constructors and methods state the exact call sequence
each one appends to that log. The lemmas then prove properties of those
sequences:

- image-layout chains;
- staging release order;
- exactly one submission and one presentation per acquired image;
- recreation submits nothing.

The model follows the renderer's own types:

- 32-bit and 16-bit unsigned wrap-around is written out as `% 2^32` and `% 2^16`;
- timer values are 64-bit;
- float vectors are carried as `real`s and never computed with.

The surface's answers to acquire and present are parameters of a tick. So are
the timer readings and the importer's result.

## Model

| member | source | states |
|---|---|---|
| RenderTexture.BytesPerTexel | source/render/resource/render_texture.cpp:34-61 | A texel size exists exactly for the seven formats the switch lists, and it is the format's component count times its component size. |
| RenderTexture.LayerByteSize | source/render/resource/render_texture.cpp:34-61 | A layer size is width x height x bytes per texel for a listed format; any other format is the "invalid texture_layer_byte_size" error. |
| RenderTexture.Texture2DStagingMatchesImage | source/render/resource/render_texture.cpp:24-61 | The staging copy sized by the requested format has the byte size of the always-RGBA8 image exactly when the requested format is R8G8B8A8 UNORM or SRGB; for the other listed formats the copy from the 4-byte-per-texel pixels is too short (3-byte formats) or runs past them (8-, 12- and 16-byte formats). |
| RenderTexture.Log2Floor | source/render/resource/render_texture.cpp:32 | The integer log2 brackets its argument between two consecutive powers of two. |
| RenderTexture.Log2FloorUnique | source/render/resource/render_texture.cpp:32 | Only one exponent brackets n, so Log2Floor is floor(log2 n). |
| RenderTexture.MipLevels | source/render/resource/render_texture.cpp:32 | With mipmapping, the level count m satisfies 2^(m-1) <= max(width, height) < 2^m; without it, m is 1. |
| RenderTexture.MipLevelsOf256 | source/render/resource/render_texture.cpp:32 | A 256x256 mipmapped texture has 9 levels. |
| RenderTexture.Texture2DSamplerChoice | source/render/resource/render_texture.cpp:114-120 | The linear sampler is chosen exactly when mipmaps are generated; otherwise the mipmap sampler is chosen, with one level. |
| RenderTexture.CubeFaceWrites | source/render/resource/render_texture.cpp:201-222 | Face i is decoded from path i and written at offset i x layer size, one layer long, so the six faces tile the staging buffer. |
| RenderTexture.Texture2DLayoutChain | source/render/resource/render_texture.cpp:89-105 | The 2D upload is a legal layout sequence, from UNDEFINED through TRANSFER_DST with the copy there, ending in SHADER_READ_ONLY. From any other start it is illegal. |
| RenderTexture.TextureCubeLayoutChain | source/render/resource/render_texture.cpp:230-276 | The same holds for the six-layer cube upload. |
| RenderTexture.Texture2DStagingReleasedBeforeMipmaps | source/render/resource/render_texture.cpp:95-113 | The staging memory and buffer are released after the copy and the second layout transition, and before mip generation. |
| RenderTexture.StageTexture2D | source/render/resource/render_texture.cpp:68-108 | The staging part of the 2D upload appends exactly its nine calls, with fresh consecutive handles. |
| RenderTexture.Texture2D.constructor | source/render/resource/render_texture.cpp:68-131 | Name, path, size, mip count, fresh image/memory/view handles, the cached-or-new sampler, SHADER_READ_ONLY layout and descriptor info. The log gains exactly the upload calls. |
| RenderTexture.Texture2D.Destroy | source/render/resource/render_texture.cpp:133-139 | View, image and memory are released in that order, and the layout becomes UNDEFINED. |
| RenderTexture.LoadTexture2D | source/render/resource/render_texture.cpp:18-66 | It fails exactly when the format is unlisted or the file does not decode, and the format error takes precedence. On failure only the decode is logged; on success the texture is fully uploaded. |
| RenderTexture.StageCubeFaces | source/render/resource/render_texture.cpp:193-222 | One staging buffer of six layers is created, then filled face by face. |
| RenderTexture.WriteCubeFaces | source/render/resource/render_texture.cpp:201-222 | The face loop appends a decode, a write at the running offset and a pixel free for each face, in order. |
| RenderTexture.CopyCubeStaging | source/render/resource/render_texture.cpp:223-279 | Image creation, both transitions around the copy, then the buffer and memory are released, in the source's order. |
| RenderTexture.TextureCube.constructor | source/render/resource/render_texture.cpp:142-293 | Size, one mip level, fresh handles, the cube-map sampler, a cube view of six layers, SHADER_READ_ONLY layout. The log gains exactly the cube upload calls. |
| RenderTexture.TextureCube.Destroy | source/render/resource/render_texture.cpp:295-301 | View, image and memory are released in that order, and the layout becomes UNDEFINED. |
| RenderTexture.LoadTextureCube | source/render/resource/render_texture.cpp:142-193 | It fails exactly when the format is unlisted. The first face is decoded before that check. |
| ForwardRendering.Resize | source/render/forward_render.cpp:223-231 | std::vector::resize: the result has the new length, keeps the old prefix and pads with the fill value. |
| ForwardRendering.QuietSubmitsNothing | source/render/forward_render.cpp:239-253 | A call sequence with no record, submit or present events submits and presents nothing. |
| ForwardRendering.RecreateIsQuiet | source/render/forward_render.cpp:239-253 | Rebuilding the swapchain and then the targets records, submits and presents nothing. |
| ForwardRendering.RecordSubmitsOnce | source/render/forward_render.cpp:189-214 | Recording a frame submits its command buffer exactly once and presents its image exactly once. |
| ForwardRendering.FrameSubmitsOnce | source/render/forward_render.cpp:180-215 | A frame with an acquired image submits that image's buffer and presents that image, once each. A frame without one submits and presents nothing. |
| ForwardRendering.RunSubmitsInOrder | source/render/forward_render.cpp:174-215 | Over any run of frames, submissions and presentations are one per acquired image, in frame order. |
| ForwardRendering.ForwardRender.Initialize | source/render/forward_render.cpp:12-31 | A missing command pool or too few command buffers is an error. On success there is one target per swapchain image, one backup target, one command buffer per image, the descriptor pool and the passes [main camera, UI overlay]. The log gains exactly the initialization calls. |
| ForwardRendering.ForwardRender.SetupTargets | source/render/forward_render.cpp:24-26 | The swapchain targets and a fresh backup target sized to the swapchain. |
| ForwardRendering.ForwardRender.FinishInitialize | source/render/forward_render.cpp:27-30 | The descriptor pool, the pass list and the pass initialization calls; the renderer is then valid. |
| ForwardRendering.ForwardRender.SetupRenderTargets | source/render/forward_render.cpp:33-49 | One target per swapchain image, with that image, its view and the swapchain format, in PRESENT_SRC layout. |
| ForwardRendering.ForwardRender.SetupCommandBuffer | source/render/forward_render.cpp:51-83 | A failed pool creation or allocation is the matching error. Otherwise there is one fresh command buffer per swapchain image, in order. |
| ForwardRendering.ForwardRender.SetupDescriptorPool | source/render/forward_render.cpp:85-106 | One pool with the four pool sizes and four sets. |
| ForwardRendering.ForwardRender.SetupBackupBuffer | source/render/forward_render.cpp:108-138 | Slot 0 gets a fresh RGBA8 colour image, memory and view at the swapchain extent, in COLOR_ATTACHMENT layout. |
| ForwardRendering.ForwardRender.SetViewport | source/render/forward_render.cpp:140-148 | The viewport and scissor cover the swapchain extent from the origin, with depth 0 to 1. |
| ForwardRendering.ForwardRender.SetupRenderpass | source/render/forward_render.cpp:150-172 | The pass list is main camera then UI overlay, and each pass is initialized in that order. |
| ForwardRendering.ForwardRender.UpdateAfterSwapchainRecreate | source/render/forward_render.cpp:239-253 | The old backup target is released. New targets, a fresh backup target whose image, memory and view each differ from the old ones, and a viewport are set for the new swapchain, and every pass is told. The command buffers, the pool and the descriptor pool are unchanged. |
| ForwardRendering.ForwardRender.ReleaseBackupBuffer | source/render/forward_render.cpp:241-243 | The backup image, view and memory are destroyed in that order. |
| ForwardRendering.ForwardRender.NotifyPassesRecreated | source/render/forward_render.cpp:249-252 | Every pass in list order is told the swapchain was recreated. |
| ForwardRendering.ForwardRender.Recreate | source/render/forward_render.cpp:182-188 | An out-of-date surface rebuilds the swapchain to the reported configuration, then the targets. The new backup handles differ from the old ones, and no new render target shares an image or view with an old one. Nothing is recorded or submitted. |
| ForwardRendering.ForwardRender.HandleSurface | source/render/forward_render.cpp:182-188 | A usable surface logs nothing and leaves the backup target, the render targets, the swapchain and the viewport as they were. An out-of-date one rebuilds the swapchain to the reported image count, format and extent, then runs the recreation callback: a new backup target and every pass told, in that order. Either way nothing is submitted. |
| ForwardRendering.ForwardRender.Draw | source/render/forward_render.cpp:180-215 | Without an image (index -1 as uint32) nothing is recorded or presented. With one, that image's buffer is reset, recorded with both passes, submitted and the image presented. The acquire's calls are its surface answer's rebuild and recreation, or none. So are the present's calls, starting from what the acquire left. The swapchain ends with the configuration the last out-of-date answer reported. |
| ForwardRendering.ForwardRender.PresentFrame | source/render/forward_render.cpp:184-214 | After the acquire: nothing more on NoImage. Otherwise the image is recorded and presented, then the present's answer is handled as an acquire's is. |
| ForwardRendering.ForwardRender.RecordAndPresent | source/render/forward_render.cpp:189-214 | The current buffer becomes the image's buffer, and it is reset, begun, drawn by both passes, ended, submitted and presented. |
| ForwardRendering.ForwardRender.Tick | source/render/forward_render.cpp:174-178 | The base clock advances by one Tick, then one frame is drawn, with the acquire and present recreations and the final swapchain configuration that Draw states. |
| ForwardRendering.ForwardRender.UpdateRenderModelUBOList | source/render/forward_render.cpp:223-231 | The list is resized to the input, every model matrix is copied and the normal matrices are kept or default-filled. The whole list is uploaded. |
| RenderFrame.TickClock | include/render/render_base.h:72-81 | After a Tick the counters fit 32 and 64 bits, and the last and current timestamps are the new reading. |
| RenderFrame.TickCountsOneFrame | include/render/render_base.h:77 | The count goes up by one, or wraps from 2^32 - 1 to 0. |
| RenderFrame.TickMeasuresElapsed | include/render/render_base.h:74-80 | The frame time is the elapsed time since the previous Tick. On the first frame it is measured from that frame's own seeding read. |
| RenderFrame.FrameCountAfterRun | include/render/render_base.h:77 | After n Ticks the count is the old count plus n, modulo 2^32. |
| RenderFrame.FrameTimesAddUp | include/render/render_base.h:74-80 | With monotone timer readings and no wrap, the frame times of a run sum to the total elapsed time. |
| RenderFrame.CountWrapReseedsTimer | include/render/render_base.h:74-77 | When the 32-bit count wraps to 0, the next Tick re-seeds its start time like a first frame. |
| RenderFrame.RenderBase.constructor | include/render/render_base.h:23-32 | It demands a graphics context and starts with the 1280x768 viewport and scissor and a zero clock. |
| RenderFrame.RenderBase.Tick | include/render/render_base.h:72-81 | The fields advance exactly as TickClock does. |
| RenderFrame.RenderBase.GetFrameCount | include/render/render_base.h:83-86 | It returns the 32-bit count and changes nothing. |
| RenderFrame.RenderBase.UpdateRenderModelList | include/render/render_base.h:49-51 | The default hook changes nothing. |
| RenderFrame.RenderBase.UpdateRenderPerFrameScenceUBO | include/render/render_base.h:53-55 | The default hook changes nothing. |
| RenderFrame.RenderBase.SetupModelRenderTextures | include/render/render_base.h:57-58 | The default hook changes nothing. |
| RenderFrame.RenderBase.SetupSkyboxTexture | include/render/render_base.h:60-61 | The default hook changes nothing. |
| RenderFrame.RenderBase.UpdateLightProjectionList | include/render/render_base.h:63-64 | The default hook changes nothing. |
| RenderFrame.RenderBase.SetupShadowMapTexture | include/render/render_base.h:66-67 | The default hook changes nothing. |
| RenderFrame.RenderBase.FlushRenderbuffer | include/render/render_base.h:69-70 | The default hook changes nothing. |
| MeshLayout.StructSizes | include/render/resource/render_mesh.h:29-43 | The position, normal and texcoord structs are 12, 28 and 8 bytes, and the tangent sits at offset 12. |
| MeshLayout.MeshBindingsWellFormed | include/render/resource/render_mesh.h:48-65 | Binding i is number i, per vertex, with the stride of stream i's struct. |
| MeshLayout.MeshAttributesConsistent | include/render/resource/render_mesh.h:67-95 | The four attributes sit at locations 0 to 3 on bindings 0, 1, 1, 2. Each reads one member of its binding's struct at that member's offset, with a matching format, inside the stride. |
| MeshLayout.LightTablesArePositionOnly | include/render/resource/render_mesh.h:97-119 | The light tables are the position-only prefix of the mesh tables and are consistent on their own. |
| MeshLayout.NewRenderSubmesh | include/render/resource/render_mesh.h:122-129 | A default submesh is an empty range at 0, with material -1 and no parent. |
| MeshLayout.RenderMesh.constructor | include/render/resource/render_mesh.h:131-156 | A new mesh has empty streams, dynamic-buffer slot 0 and no device buffers. |
| Scene.Int32Of | source/scene/model.cpp:106 | The unsigned material index stored into the signed field lies in the signed 32-bit range and is congruent to it modulo 2^32. |
| Scene.OffsetIndicesModulo | source/scene/model.cpp:95 | Each stored index is the face index plus the base, cut to 32 and then 16 bits. |
| Scene.NormalsOf | source/scene/model.cpp:60-75 | Every tangent's w is +1 or -1, one entry per vertex. |
| Scene.AppendMeshPreserves | source/scene/model.cpp:47-106 | One mesh keeps the flattening invariant: equal stream lengths, tangent signs, contiguous ranges, and a running count equal to the range total and the index-stream length. |
| Scene.FoldMeshesPreserves | source/scene/model.cpp:32-45 | Any sequence of meshes keeps the invariant and adds one range per mesh. |
| Scene.FoldMeshesRange | source/scene/model.cpp:100-106 | Range k belongs to the k-th mesh processed: its parent is the loaded mesh, its material is that mesh's, and its index count is that mesh's number of face indices (in 32 bits). |
| Scene.ContiguousOffsets | source/scene/model.cpp:100-105 | Each range starts at the total length of the ranges before it, with vertex offset 0. |
| Scene.LoadedModelInvariant | source/scene/model.cpp:24-45 | A full load holds the invariant, has one range per mesh in pre-order with its material, and, when the vertices fit 16-bit indices, every index names a vertex. The load is the one with the corrected index base (see ## Findings); the code as written does not resolve every index (Scene.IndexBaseCounterexample). |
| Scene.CorrectedIndicesResolve | source/scene/model.cpp:95 | With the vertex-count base, each appended index names the vertex its face named. |
| Scene.CorrectedKeepsIndicesInRange | source/scene/model.cpp:95 | With the vertex-count base, appending a mesh keeps every index inside the vertex streams. |
| Scene.FoldMeshesIndicesResolve | source/scene/model.cpp:32-45 | The same holds over a whole flattening with the corrected index base (see ## Findings). |
| Scene.ProcessMeshSpec | source/scene/model.cpp:47-106 | processMesh as written. Each vertex stream grows by the mesh's vertex count. The index stream keeps what it held and grows by the mesh's face indices. One range is added: it starts at the running count, covers those indices and carries the mesh's material. The 32-bit count rises by the indices added. |
| Scene.ProcessMeshCorrected | source/scene/model.cpp:47-106 | The same growth, ranges and count as processMesh, with the index base corrected to the vertex count (see ## Findings). |
| Scene.FoldMeshes | source/scene/model.cpp:32-45 | The flattening of meshes in visiting order adds one range per mesh. The ranges, indices and vertex positions already there are kept. |
| Scene.AsWrittenIndexBase | source/scene/model.cpp:89-98 | As written, the k-th appended index is the face index plus the running index count, modulo 2^16. |
| Scene.AsWrittenAgreesOnUnsharedVertices | source/scene/model.cpp:95 | When each mesh has one index per vertex, the code as written and the corrected base give the same result. |
| Scene.IndexBaseCounterexample | source/scene/model.cpp:95 | As written, a quad followed by a triangle gives the triangle indices 6, 7, 8 over a 7-vertex stream. |
| Scene.IndexBaseCorrectedExample | source/scene/model.cpp:95 | With the corrected base, the same triangle gets 4, 5, 6. |
| Scene.AppendVertices | source/scene/model.cpp:50-87 | The vertex loop appends exactly one position, normal and texcoord per vertex, with the handedness sign and a zero texcoord when there are none. |
| Scene.AppendFace | source/scene/model.cpp:92-97 | One face's indices are appended, offset by the base, and the 32-bit counter rises by the face's size. |
| Scene.AppendIndices | source/scene/model.cpp:89-98 | Every face's indices are appended in order, and the count of indices appended is kept in 32 bits. |
| Scene.Model.constructor | include/scene/model.h:27-28 | A new model has empty names, count 0, no ranges, no mesh and no textures. |
| Scene.Model.LoadModelFile | source/scene/model.cpp:14-30 | A failed import returns false and changes nothing. Otherwise a fresh mesh holds the pre-order flattening of the scene, and the mesh and the model share the ranges. Uses the corrected index base (see ## Findings). |
| Scene.Model.LoadIntoNewMesh | source/scene/model.cpp:24-28 | The count and ranges are reset, a fresh empty mesh is made, and the tree is flattened into it. Uses the corrected index base (see ## Findings). |
| Scene.Model.LoadScene | source/scene/model.cpp:27-28 | The walk, then the ranges are handed to the mesh. Uses the corrected index base (see ## Findings). |
| Scene.Model.ProcessModelNode | source/scene/model.cpp:32-45 | A node's own meshes are processed, then its children's subtrees: the pre-order flattening. Uses the corrected index base (see ## Findings). |
| Scene.Model.ProcessMeshes | source/scene/model.cpp:35-39 | The node's meshes are processed in order. Uses the corrected index base (see ## Findings). |
| Scene.Model.ProcessChildren | source/scene/model.cpp:41-44 | The children's subtrees are processed in order. Uses the corrected index base (see ## Findings). |
| Scene.Model.ProcessMesh | source/scene/model.cpp:47-106 | The vertices, the face indices at the corrected base (the vertex count before this mesh, see ## Findings), and one range at the running count are appended. |
| Scene.Model.SetMeshIndex | include/scene/model.h:42-45 | The 32-bit slot is stored into the 16-bit field, keeping the low 16 bits. |
| Scene.Model.GetSubmeshes | include/scene/model.h:47-50 | It returns the model's ranges. |
| Scene.Model.GetTextures | include/scene/model.h:52-55 | It returns the texture list, which is always empty. |

## Left out

- Floating point. `Tick`'s division of the frame time by the timer frequency is kept as the tick difference. The handedness test (cross product, dot product, `< 0`) is a parameter of the load, `HandednessTest`.
- `Model::Tick`, `Model::ToGPU`, `RenderMesh::ToGPU` and the device-buffer release: they are matrix math and buffer uploads outside the flattening.
- The material block of `processMesh` (model.cpp:108 onward) is left out because it has no effect: nothing it does ever reaches `textures_loaded`.
- The uniform-buffer structs, `UpdateRenderPerFrameScenceUBO` and `SetVisibleRenderData` of the forward renderer are left out: they copy matrices that are never computed with. `UpdateRenderModelUBOList` is modelled.
- The forward renderer's destructor, fences and queue waits are left out, as is the global context singleton. The context is the `Device` parameter.
- The render passes' own work is one logged event per initialize, draw and recreate.
- The pass slots (main camera 0, UI overlay 1) are taken as declared constants, because forward_render.h is not part of this model.
- The surface-recreation callback is modelled through `SurfaceStatus` parameters of `Draw`. The default model matrix that a resize fills in is a constructor parameter.
- `VK_CHECK_RESULT` on the descriptor pool, and the begin/end command-buffer result asserts, are treated as success.
- LayerByteSize: does not model the C++ `int` overflow of `width * height * bytes` for very large images, because sizes here are unbounded.
- LoadTextureCube: the cube constructor never checks whether a face decoded. The model demands, as a precondition, that every face decodes to the first face's size.
- LoadTexture2D: on the unlisted-format error, the decoded pixels are never freed. That leak is not modelled.
- LoadTextureCube: the first face is decoded at source/render/resource/render_texture.cpp:153 and decoded again by the face loop at :206 into the same pointer, so the first decode is never freed. The model keeps this leak as it is: a successful load logs seven decodes and six frees. On the unlisted-format error the first face's pixels are not freed either, and the model logs only the decode.
- ForwardRendering.ForwardRender.constructor: forward_render.h is not part of this model, so the constructor is a scaffold. It builds the base part as include/render/render_base.h:23-32 does, and starts every list empty and every handle null until initialize.
- ForwardRendering.ForwardRender.Draw: the command buffers are not reallocated when a recreation changes the swapchain image count. The model demands that the acquired index is below the number of command buffers.
- Scene.FoldMeshes and Scene.Model.LoadModelFile: the whole load uses the corrected index base (the vertex count) of the finding below, not the running index count that model.cpp:95 adds; the as-written per-mesh step is `Scene.ProcessMeshSpec`, whose lemmas show where the two differ and that they agree when every mesh has one index per vertex.
- Scene.Model.LoadModelFile: the code reads normals, tangents and bitangents (model.cpp:58, 63-64) without checking they exist; the model requires them (`WellFormedMesh`), so meshes the importer returns without them are not covered.
- Scene.Model.LoadModelFile: the header declares a second `model_name` parameter that the definition does not have. The definition is followed.

## Findings

| source | as written | input that shows it | evidently intended | confidence | as-written member | corrected member |
|---|---|---|---|---|---|---|
| source/scene/model.cpp:95 | each mesh's face indices are offset by the running INDEX count `m_index_count` | a quad (4 vertices, 6 indices) then a triangle (3 vertices): the triangle's indices come out 6, 7, 8, but the stream has 7 vertices | offset by the number of vertices already in the streams, so each index names its mesh's own vertex (4, 5, 6) | medium, not executed; the two agree whenever every mesh has one index per vertex (Scene.AsWrittenAgreesOnUnsharedVertices) | Scene.IndexBaseCounterexample | Scene.CorrectedIndicesResolve |
