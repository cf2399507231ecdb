# krender core in Dafny

A model of the core of krender, a deferred renderer written in C++ on top
of Panda3D. The model covers five parts:

- **Packed record layouts** (`light.h`, `shadow_source.h`, `light_data.h`).
  These are the light and shadow-source records and the light table, all
  GPU-visible. Each record is written out as its sequence of 32-bit entries.
- **The light / shadow-source table and its commands**
  (`lighting_pipeline.cxx`). The model covers:
  - the four commands: store-light, remove-light, store-source and
    remove-sources;
  - the 32-entry command blocks the dispatcher reads;
  - the per-frame `_update`, which applies a drained batch in order and
    copies the whole table into the "Light Data" buffer.
- **The shadow-atlas sizing loop** of `_create_shadowmap`.
- **The render-pass graph** (`render_pipeline.cxx`, `render_pass.cxx`,
  `scene_pass.cxx`, `depth_pass.cxx`, `post_pass.cxx`). The model covers:
  - the construction of scene, depth and post passes;
  - the wiring `add_render_pass` does, where each post pass renders the
    previous pass's result card and binds the scene textures and
    `prev_color`;
  - the name lookups, where scene passes are scanned first and the first
    match wins;
  - `update`: after a resize it configures once and reloads every pass
    exactly once, and the lighting update runs last.
- **The instance buffers** (`instance.h`, `instance.cxx`). These are the
  clamped instance count, the four per-instance setters, and the copy of
  the transform and time arrays into their buffer textures.

Modules, one per file:

| module | file | models |
|---|---|---|
| `Wrappers` | wrappers.dfy | `Option`, for lookups that may miss |
| `Layout` | layout.dfy | size macros, limits, record encodings |
| `LightData` | light_data.dfy | the light table and its serialised form |
| `LightCommands` | light_commands.dfy | commands, `Apply`, last-writer-wins |
| `LightingPipeline` | lighting_pipeline.dfy | command blocks, `_update`, atlas sizing |
| `RenderPass` | render_pass.dfy | one pass of each kind |
| `RenderPipeline` | render_pipeline.dfy | the pass graph, lookups, `update` |
| `Instance` | instance.dfy | `InstanceNode` |

Conventions:

- A `Scalar` is one 32-bit field. Integer-valued fields (slots, tags,
  counts) are read by their value, which is the evident intent; how the
  C++ actually reads them is listed under "Left out" and "Findings".
  Float payloads are opaque values on which the model does no arithmetic.
- Byte offsets are four times entry offsets.
- Engine objects (buffers, textures, cameras, cards, shaders) are records
  of what a pass asked the engine for.
- External collaborators appear as parameters. These are the light and
  shadow managers and the `GPUCommandList` producer. `_update` receives
  the command buffer and the number of commands drained. `update` receives
  the window's current size.
- `_configure` and `reload_shader` appear as logged events.

Three points where the code's behaviour needs stating:

- The command stride is `GPU_COMMAND_SIZE * R32` bytes
  (lighting_pipeline.cxx:199), that is 32 four-byte entries. `R32` is
  taken to be the 4-byte size of one `F_r32` texel.
- The C++ indexes the slot arrays with the command's slot without a check
  (lighting_pipeline.cxx:146, 156, 164, 177), so a slot outside the table
  is undefined behaviour. The model asks for well-formed commands
  (`LightCommands.WellFormed`).
- The remove-sources loop runs `i <= count` (lighting_pipeline.cxx:175),
  so `count + 1` slots are cleared.

## Model

| member | source | states |
|---|---|---|
| `Layout.DecodeLightInfo` | krender/core/light.h:29-35 | reading the nine fields of a 36-byte light info and writing them back gives the same entries |
| `Layout.DecodeLightDef` | krender/core/light.h:22-27 | the packed view of a light definition: the slot is entry 0, and the stored info is the bytes after the 12-byte header |
| `Layout.DecodeShadowSourceInfo` | krender/core/shadow_source.h:21-24 | reading a 16-entry matrix and a 4-entry UV rectangle and writing them back gives the same 80 bytes |
| `Layout.DecodeShadowSourceDef` | krender/core/shadow_source.h:8-14 | a shadow-source definition is its slot in entry 0 followed by the info, and reading it back loses nothing |
| `Layout.LightInfoRoundTrip` | krender/core/light.h:43-46 | the `info` and `data` views of union `LightInfo` agree: encoding then decoding returns the record |
| `Layout.LightDefRoundTrip` | krender/core/light.h:37-41 | the unpacked and byte views of union `LightDef` agree: encoding then decoding returns the definition |
| `Layout.ShadowSourceInfoRoundTrip` | krender/core/shadow_source.h:32-35 | the two views of union `ShadowSourceInfo` agree: encoding then decoding returns the record |
| `Layout.ShadowSourceDefRoundTrip` | krender/core/shadow_source.h:26-30 | the views of union `ShadowSourceDef` agree: encoding then decoding returns the definition |
| `Layout.PackedLightInfoMatchesUnpacked` | krender/core/light.h:8-27 | the packed view's info bytes are the unpacked `ss0 … iradius` fields. They start at byte 12, and header plus info is `LIGHT_DEF_SIZE` |
| `Layout.PackedSourceInfoMatchesUnpacked` | krender/core/shadow_source.h:8-19 | with the layout the size macros imply, the packed view's info is the unpacked matrix and UV after the 4-byte slot; slot plus info is `SHADOW_SOURCE_DEF_SIZE` |
| `Layout.PackedSourceDataOffsetAsWritten` | krender/core/shadow_source.h:16-19 | as declared, `data` holds pointers, so it starts at the first pointer-aligned offset past the slot: byte 8, not byte 4 |
| `Layout.PackedSourceDataAsWritten` | krender/core/shadow_source.h:16-19 | as declared, the packed `data` of a definition is its info shifted by one entry: it starts at `mvp[1]`, and `mvp[0]` is lost |
| `Layout.PackedSourceDataAsWrittenDropsMvp0` | krender/core/lighting_pipeline.cxx:159-166 | a source whose matrix starts with 1: the packed `data` as declared starts with 0, while the intended info starts with the 1 |
| `Layout.LayoutConstants` | krender/core/light_data.h:12-13 | the macros evaluate to 36/48/80/84 bytes per record, 96 shadow sources, 8256 table bytes, and 1024 commands of 32 entries |
| `LightData.EmptyTable` | krender/core/light_data.h:16-19 | a table of 16 light slots and 96 shadow-source slots, every one zero |
| `LightData.Serialize` | krender/core/lighting_pipeline.cxx:222-223 | the bytes copied to the GPU are exactly `LIGHT_DATA_SIZE` long |
| `LightData.Deserialize` | krender/core/light_data.h:21-24 | reading the byte view of union `LightData` as slot arrays and serialising again returns the same bytes |
| `LightData.TableRoundTrip` | krender/core/light_data.h:21-24 | reading back a serialised table returns the table |
| `LightData.FlattenLightsSlot` | krender/core/light_data.h:17 | in the flattened light array, light `k` occupies entries `9k` to `9k+8` |
| `LightData.FlattenSourcesSlot` | krender/core/light_data.h:18 | in the flattened source array, source `k` occupies entries `20k` to `20k+19` |
| `LightData.SerializedLightSlot` | krender/core/light_data.h:16-19 | light slot `k` is the 36 bytes at byte `36k`, before every shadow-source slot |
| `LightData.SerializedSourceSlot` | krender/core/light_data.h:13-19 | shadow-source slot `k` is the 80 bytes at byte `576 + 80k`, inside the `LIGHT_DATA_SIZE` bytes |
| `LightData.LightDataTexelCount` | krender/core/lighting_pipeline.cxx:133-138 | the table fills a whole number of RGBA32 texels: 516 |
| `LightData.SourceOffsetAsWritten` | krender/core/shadow_source.h:32-35 | as declared, the shadow-source stride is eight times the intended 80 bytes, so every source after the first lies further out than intended |
| `LightData.SourcesAsWrittenMissTheCopy` | krender/core/light_data.h:16-19 | as declared, source 1 sits at byte 1216, not 656, and sources 12 to 95 lie past the bytes copied to the GPU. With 80-byte records every source lies inside them |
| `LightCommands.WellFormed` | krender/core/lighting_pipeline.cxx:141-179 | the slots each command indexes lie inside the table: a light slot below 16, a source slot below 96, and `slot0 .. slot0 + count` inside the 96 sources when `count >= 0` |
| `LightCommands.TagOf` | krender/core/lighting_pipeline.cxx:204-219 | the dispatch tags 1 to 4 select exactly the four real commands |
| `LightCommands.ClearSources` | krender/core/lighting_pipeline.cxx:168-179 | the remove-sources loop zeroes the slots from `slot0 + i` to `slot0 + count` inclusive and keeps every other slot |
| `LightCommands.Apply` | krender/core/lighting_pipeline.cxx:141-179 | per command: a store overwrites its slot, remove-light and remove-sources zero theirs, an unknown tag changes nothing. Every slot not named keeps its record, and the other array is untouched |
| `LightCommands.ApplyLightSlot` | krender/core/lighting_pipeline.cxx:141-157 | after one command, light slot `k` holds what that command writes there, or its old record if the command does not name `k` |
| `LightCommands.ApplySourceSlot` | krender/core/lighting_pipeline.cxx:159-179 | after one command, source slot `k` holds what that command writes there, or its old record |
| `LightCommands.ApplyAll` | krender/core/lighting_pipeline.cxx:198-220 | a batch is applied in index order, first command first, and the table keeps its 16 light and 96 source slots; `ApplyAllStep`, `ApplyAllAppend` and the last-writer lemmas give its content |
| `LightCommands.ApplyAllStep` | krender/core/lighting_pipeline.cxx:198-220 | applying one more command of a batch is applying it to the table the prefix left |
| `LightCommands.LastLightWriterWins` | krender/core/lighting_pipeline.cxx:141-157 | after a batch, each light slot holds what the last command writing it left, or its old record if none wrote it |
| `LightCommands.LastSourceWriterWins` | krender/core/lighting_pipeline.cxx:159-179 | after a batch, each shadow-source slot holds what the last command writing it left, or its old record if none wrote it |
| `LightCommands.ApplyAllAppend` | krender/core/lighting_pipeline.cxx:198-220 | applying two batches in turn equals applying their concatenation |
| `LightCommands.RemoveSourcesBoundary` | krender/core/lighting_pipeline.cxx:175-178 | remove-sources clears `slot0` and `slot0 + count`, and leaves `slot0 - 1` and `slot0 + count + 1` alone |
| `LightCommands.RemovedLightNamesSourceZero` | krender/core/lighting_pipeline.cxx:150-157 | a removed light holds `ss0 = 0`, not the no-shadow value -1 of light.h:14, so the cleared slot reads as casting shadows from source 0 |
| `LightCommands.ClearPrefix` | krender/core/lighting_pipeline.cxx:155-156 | a `memset(data, 0, bytes)`: the entries in the first `bytes` bytes become zero, the rest are kept |
| `LightCommands.RemoveLightAsWritten` | krender/core/lighting_pipeline.cxx:150-157 | as written, remove-light zeroes only `ss0` and `pos.x` of its slot: `pos.y`, `pos.z`, the colour, radius and `iradius` survive, and every other light and every shadow source is kept |
| `LightCommands.RemoveLightAsWrittenKeepsRadius` | krender/core/lighting_pipeline.cxx:155-156 | a light of radius 7 keeps radius 7 after remove-light as written, but is zero under `Apply` |
| `LightCommands.RemoveSourcesAsWritten` | krender/core/lighting_pipeline.cxx:168-179 | as written, remove-sources zeroes `mvp[0]` and `mvp[1]` of each source from `slot0` to `slot0 + count`, keeps their UV rectangle and other matrix entries, and leaves every source outside the range and every light unchanged |
| `LightCommands.ClearSourceAsWritten` | krender/core/lighting_pipeline.cxx:176-177 | the 8-byte memset of one source record zeroes `mvp[0]` and `mvp[1]` and keeps the rest |
| `LightCommands.RemoveSourcesAsWrittenKeepsUv` | krender/core/lighting_pipeline.cxx:176-177 | a source with UV (1,1,1,1) keeps it after remove-sources as written, but is zero under `Apply` |
| `LightingPipeline.EncodeCommand` | krender/core/lighting_pipeline.cxx:199-202 | a command block is 32 entries with the command's tag in entry 0 |
| `LightingPipeline.DecodeCommand` | krender/core/lighting_pipeline.cxx:198-219 | a block is a real command if and only if its tag is 1 to 4. The tag is preserved, and slot, count and records are read from entry 1 on |
| `LightingPipeline.CommandRoundTrip` | krender/core/lighting_pipeline.cxx:199-219 | decoding an encoded command returns it |
| `LightingPipeline.CommandsFitStride` | krender/core/lighting_pipeline.h:31 | the tag and the largest definition fit in one 32-entry block |
| `LightingPipeline.Block` | krender/core/lighting_pipeline.cxx:199 | block `i` is the 32 entries from entry `32 * i` on, the bytes from `i * GPU_COMMAND_SIZE * R32` |
| `LightingPipeline.DecodeBatch` | krender/core/lighting_pipeline.cxx:198-203 | the `n` drained commands are blocks 0 to `n-1`, each decoded from its own 32 entries, in index order |
| `LightingPipeline.Update` | krender/core/lighting_pipeline.cxx:181-224 | with no command nothing changes. Otherwise the table is the batch applied in order, and the light buffer holds the whole new table |
| `LightingPipeline.CeilSqrt` | krender/core/lighting_pipeline.cxx:35 | `ceil(sqrt(n))` exactly: the least `r` with `r*r >= n` |
| `LightingPipeline.GrowAtlas` | krender/core/lighting_pipeline.cxx:36-37 | doubling stops at the least `start * 2^k` that reaches the required size |
| `LightingPipeline.CeilSqrtOf96` | krender/core/lighting_pipeline.cxx:35 | the least square root bound of 96 is 10 |
| `LightingPipeline.CreateShadowmapAtlas` | krender/core/lighting_pipeline.cxx:26-37 | a 10x10 grid of 512-pixel tiles holds 96 sources. The atlas is 8192, less than twice the 5120 needed, and fits the `short` `_atlas_size` |
| `LightingPipeline.TagSeenAsWritten` | krender/core/lighting_pipeline.cxx:200-201 | a float tag of 1 to 4 read as `int32_t` bits is never a tag the switch knows |
| `LightingPipeline.TagAsWrittenDropsCommands` | krender/core/lighting_pipeline.cxx:200-219 | as written every real command reaches `default` and leaves the table unchanged, while the block decoded by value is the command |
| `LightingPipeline.LightDataTexelsAsWritten` | krender/core/lighting_pipeline.cxx:132-138 | as written the light buffer holds fewer bytes than the `LIGHT_DATA_SIZE` bytes copied into it |
| `RenderPass.TextureAt` | krender/core/render_pass.cxx:42-48 | `get_texture(i)` yields texture `i` exactly when `i < get_num_textures()`, and otherwise the out-of-range failure |
| `RenderPass.NumTextures` | krender/core/render_pass.cxx:46-48 | `get_num_textures()` is the length of the texture list; `TextureAt` is defined exactly below it |
| `RenderPass.BaseTextures` | krender/core/render_pass.cxx:75-99 | the colour texture comes first. An index-0 pass has only it; any other pass also has `<name>_depth` and `<name>_emissive` |
| `RenderPass.BaseBuffer` | krender/core/render_pass.cxx:50-73 | the base buffer sorts at `index - 10` and has one bit per colour channel. It asks for depth and an aux target only at index 0, and clears to alpha 1 |
| `RenderPass.FullScreenLens` | krender/core/render_pass.cxx:122-129 | the 2D lens is orthographic, film 2x2, offset 0, near -1000, far 1000 |
| `RenderPass.BaseCamera` | krender/core/render_pass.cxx:27-31 | the index-0 pass gets a 3D camera on the main lens with region sort 0; any other pass gets the full-screen lens with region sort 10 |
| `RenderPass.NewScenePass` | krender/core/scene_pass.cxx:4-62 | a scene pass sorts at its index and asks for 4 textures. Its textures end with depth, emissive and selector, and its camera is 3D on the main lens |
| `RenderPass.NewDepthPass` | krender/core/depth_pass.cxx:4-70 | a depth pass has only `<name>_depth` and a depth-only 32-bit float buffer that asks for sRGB colour exactly with `has_srgb`. Its clear alpha follows `has_alpha`, and its result card is `<name>_card` |
| `RenderPass.NewPostPass` | krender/core/post_pass.cxx:7-41 | a post pass sorts at `index + 10` and has the base textures. Its camera is 2D under `camera2d` with the full-screen lens |
| `RenderPipeline.NewPipeline` | krender/core/render_pipeline.cxx:16-27 | a new pipeline has no passes, caches the window size and records index, shadow size and flags |
| `RenderPipeline.ConstructorDefaults` | krender/core/render_pipeline.h:17-20 | the defaults are index 0, shadow size 512, and every flag off |
| `RenderPipeline.AddPass` | krender/core/render_pipeline.cxx:29-109 | the pass goes to the end of its list with index (scene passes so far + base index), or (scene passes + post passes + base index) for a post pass; a scene or depth pass renders the main scene under the mask; a post pass renders the result card of the last post pass, or the last scene pass if none, gets the scene textures and `prev_color` as inputs, and the shader only when one is given; every other field and every earlier pass are kept |
| `RenderPipeline.PrevRef` | krender/core/render_pipeline.cxx:63-67 | the pass a new post pass reads from is the last post pass if there is one, else the last scene pass, and it exists |
| `RenderPipeline.SceneTextureBindings` | krender/core/render_pipeline.cxx:74-80 | every texture of every scene pass is bound under its own name, and every binding is one of those textures |
| `RenderPipeline.TextureBindings` | krender/core/render_pipeline.cxx:76-79 | one binding per texture of a pass, in list order, under the texture's name |
| `RenderPipeline.PrevColorBinding` | krender/core/render_pipeline.cxx:89-94 | `prev_color` is bound once to the previous pass's texture 0 exactly when it has a texture, and otherwise not at all |
| `RenderPipeline.Resolve` | krender/core/render_pipeline.cxx:78-93 | no call binds nothing, and the last `set_shader_input` call binds its name to its texture; `ResolveKeys`, `ResolveLast` and `ResolveFrom` give the whole map |
| `RenderPipeline.AddDepthPassFollowsFlags` | krender/core/render_pipeline.cxx:47-49 | a depth pass added to the pipeline asks for sRGB colour exactly when the pipeline has `has_srgb`, and clears to alpha 0 exactly when it has `has_alpha` |
| `RenderPipeline.AddPassKeepsShape` | krender/core/render_pipeline.cxx:29-109 | every pass keeps the shape its constructor gave it when another pass is added, scene and depth passes in the scene list and post passes in the post list |
| `RenderPipeline.AddPassKeepsChain` | krender/core/render_pipeline.cxx:61-71 | the chain survives any addition: post pass 0 renders a scene pass's result card, and post pass `i` renders post pass `i-1`'s |
| `RenderPipeline.ScenePostPostChain` | krender/core/render_pipeline.cxx:62-67 | for a scene pass then two post passes, post 1 renders the scene pass's result card and post 2 renders post 1's |
| `RenderPipeline.ResolveLast` | krender/core/render_pipeline.cxx:92-93 | a later `set_shader_input` of a name replaces an earlier one |
| `RenderPipeline.ResolvedPostInputs` | krender/core/render_pipeline.cxx:73-95 | the inputs bind every scene texture under its own name and `prev_color` to texture 0 of the previous pass. No other name carries a texture of a different name |
| `RenderPipeline.PostPassInputs` | krender/core/render_pipeline.cxx:73-100 | the same, for the post pass `add_render_pass` creates |
| `RenderPipeline.FindPass` | krender/core/render_pipeline.cxx:111-123 | the lookup finds the first pass of that name, scene passes before post passes. It finds none exactly when no pass has that name |
| `RenderPipeline.FindFrom` | krender/core/render_pipeline.cxx:112-121 | the scan from a position finds the first pass of that name at or after it, and finds none exactly when no pass from there on has it |
| `RenderPipeline.FirstNamedUnique` | krender/core/render_pipeline.cxx:112-121 | at most one pass is the first of a given name, so every lookup is deterministic |
| `RenderPipeline.GetCamera` | krender/core/render_pipeline.cxx:111-123 | not found exactly when no pass has the name, otherwise the first such pass's camera |
| `RenderPipeline.GetSourceCard` | krender/core/render_pipeline.cxx:125-137 | not found exactly when no pass has the name, otherwise the first such pass's source card |
| `RenderPipeline.GetResultCard` | krender/core/render_pipeline.cxx:139-151 | not found exactly when no pass has the name, otherwise the first such pass's result card |
| `RenderPipeline.GetTexture` | krender/core/render_pipeline.cxx:153-165 | missing exactly when no pass has the name. Otherwise out of range exactly past that pass's textures, and else its texture `j` |
| `RenderPipeline.AddPassKeepsOtherLookups` | krender/core/render_pipeline.cxx:111-165 | adding a pass changes none of the four lookups for any other name |
| `RenderPipeline.Update` | krender/core/render_pipeline.cxx:167-181 | only the cached size and the lighting state change; every pass, the base index, the shadow size and the flags are kept. On a size change the cache takes the new size, `_configure` runs once and every scene pass then every post pass reloads exactly once; otherwise nothing reloads; the lighting update runs last with `LightingPipeline.Update`'s effect on table and light buffer |
| `RenderPipeline.ReloadAll` | krender/core/render_pipeline.cxx:172-177 | the two loops reload every pass once and nothing else, scene passes first |
| `RenderPipeline.ReloadsOnce` | krender/core/render_pipeline.cxx:172-177 | scene reloads in order followed by post reloads in order name each valid pass exactly once |
| `Instance.NewInstanceNode` | krender/core/instance.cxx:9-34 | the instance count is `min(num_instances, 1000)` and every array and buffer texture has its declared size |
| `Instance.SetTransform` | krender/core/instance.cxx:36-38 | changes transform `id` to the matrix and nothing else |
| `Instance.SetPrevTransform` | krender/core/instance.cxx:40-42 | changes previous transform `id` and nothing else |
| `Instance.SetTime` | krender/core/instance.cxx:44-46 | changes time `id` and nothing else |
| `Instance.SetPrevTime` | krender/core/instance.cxx:48-50 | changes previous time `id` and nothing else |
| `Instance.SetTransformCommutes` | krender/core/instance.cxx:36-38 | setting two different instances gives the same node in either order |
| `Instance.SetTransformLastWins` | krender/core/instance.cxx:36-38 | a second set of the same instance overrides the first |
| `Instance.UnflattenMats` | krender/core/instance.h:16-19 | reading the `data` view of `LMatrix4Array` as matrices and flattening again returns the bytes |
| `Instance.MatsRoundTrip` | krender/core/instance.h:16-19 | the `matrices` and `data` views agree: flattening then reading back returns the matrices |
| `Instance.FlattenMatsSlot` | krender/core/instance.h:16-19 | matrix `i` occupies entries `16i` to `16i+15` of the byte view |
| `Instance.TransformBufferFits` | krender/core/instance.h:10-13 | `MAT4_SIZE` is 64 and `RGBA_MAT4_SIZE` is 4. The 64000-byte array fills exactly the `RGBA_MAT4_SIZE * MAX_INSTANCES` RGBA32 texels |
| `Instance.CopyInto` | krender/core/instance.cxx:77-78 | a `memcpy` to the front of a texture image: the front holds the data, the rest is kept |
| `Instance.CopyArrays` | krender/core/instance.cxx:76-92 | afterwards each transform texture reads back as its array. The first 1000 entries of each time texture are its array, and the rest of the texture is unchanged |
| `Instance.UpdateShaderInputs` | krender/core/instance.cxx:76-92 | the arrays are copied, and the four textures are bound under `instance_transform_tex`, `instance_prev_transform_tex`, `instance_time_tex` and `instance_prev_time_tex` |
| `Instance.UpdatedInstanceReadBack` | krender/core/instance.cxx:76-92 | after an update, instance `i`'s matrices are texels `4i` to `4i+3` of the transform textures, and its times are entry `i` of the time textures |
| `Instance.UpdateIdempotent` | krender/core/instance.cxx:76-92 | a second update without a setter in between changes nothing |
| `Instance.SetupPath` | krender/core/instance.cxx:61-65 | a node path gets the clamped instance count, an infinite bounding volume and the final flag |

## Left out

- The progress bar, `config.cxx`, `helpers.cxx`, `setup.py` and the
  sample scene are outside the renderer core.
- The light manager, the shadow manager, the tag-state manager and the
  `GPUCommandList` producer are external engine classes. They appear only
  as the command buffer and count handed to `_update`. Consequences:
  - the queue's own capacity and FIFO behaviour are not modelled beyond
    `n <= GPU_COMMAND_LIST_LIMIT`;
  - `add_light`, `remove_light` and the camera position passed to the
    manager are left out;
  - the shadow manager's `MAX_UPDATES` re-render budget is left out; the
    constant is modelled.
- Engine configuration in the `LightingPipeline` constructor is left out:
  - shadow-map frame-buffer properties, filters and display regions
    (lighting_pipeline.cxx:39-70, 89-110);
  - the command and light buffer texture formats.
  
  Only the atlas sizing, the buffer sizes and the light table are modelled.
- Methods declared in lighting_pipeline.h:41-51 are not part of this
  model, since their definitions are not in the files modelled: `update`, `get_num_commands`, `get_num_updates`,
  `remove_lights`, `get_num_lights`, `set_shadow_update_distance`,
  `invalidate_shadows` and `prepare_scene`. `RenderPipeline.Update` takes
  the base `update` to run `_update` once.
- The `LightingPipeline` constructor the header declares
  (lighting_pipeline.h:39-40) is not the one the .cxx defines
  (lighting_pipeline.cxx:13). Shadow size and flags are recorded in the
  pipeline, but the atlas sizing uses the 512-pixel tile hard-coded at
  lighting_pipeline.cxx:29.
- `_configure` (it generates the shader configuration) and each pass's
  `reload_shader` are not part of this model. They are logged as events.
- The subclasses call a seven-argument `RenderPass` constructor and a
  five-argument `_make_fbo`. Neither is part of this model; render_pass.cxx
  holds an older base class. The model makes four assumptions:
  - the five-argument `_make_fbo` puts the colour texture first, like the
    one shown;
  - it records only the requested texture count and sort key;
  - the seven-argument constructor adds no texture and no camera of its
    own, unlike the four-argument one shown, which calls `_make_fbo` and
    `_make_textures` (render_pass.cxx:17-31);
  - the `card` argument (`prev_plane`, render_pipeline.cxx:69-71) is only
    what the post camera renders (line 105). The source card of a post
    pass is modelled as a handle of its own (`SourceCard`), although
    `get_source_card()` may well return that same previous result card.
  
  The older base-class behaviour is modelled as `BaseTextures`,
  `BaseBuffer` and `BaseCamera`.
- Every pass allocates its texture and camera names one byte short, with
  no room for the NUL. This happens at render_pass.cxx:24, 62, 82, 91,
  scene_pass.cxx:10 and post_pass.cxx:13. It is a one-byte heap overflow
  and has no value-level meaning, so the names are modelled as intended.
- Three copies behave differently as written; the model follows the
  evident intent for each, since the as-written behaviour reads past an
  8-byte allocation or at a byte-misaligned offset:
  - store-light and store-source copy only `sizeof(pointer)` bytes of the
    command into an 8-byte `malloc` before reading the packed record
    (lighting_pipeline.cxx:142-147, 160-165);
  - the payload offset advances one byte after the tag
    (lighting_pipeline.cxx:202).
- Floating point is not modelled: positions, colours, matrices, UVs and
  times are opaque 32-bit values.
- Fixed-width integer behaviour is not modelled:
  - the wrap of the `unsigned int` sort key `_index - 10` for indices
    below 10 (render_pass.cxx:67), which is modelled as the signed
    difference;
  - `unsigned short` narrowing;
  - `unsigned int` wrap of window sizes and counts.
  
  The `short` `_atlas_size` is proved to hold its value.
- A post pass added to a pipeline with no pass at all calls `back()` on an
  empty vector (render_pipeline.cxx:67), which is undefined behaviour.
  `RenderPipeline.AddPass` requires at least one pass for a post pass.
- The light table (lighting_pipeline.cxx:132) and the two transform
  arrays (instance.cxx:12-13) come from `malloc`. The two time arrays are
  member arrays that the constructor never writes (instance.h:38-39). All
  of them are uninitialised in the source; the model starts them at zero.
- `Instance.SetTransform`, `Instance.SetPrevTransform`, `Instance.SetTime`
  and `Instance.SetPrevTime` require `id < MAX_INSTANCES`. The setters do
  not check it, and a larger id writes past the arrays.
- `InstanceNode::setup()` and `update_shader_inputs()` visit every
  descendant node path. This is a scene-graph traversal, so only the
  per-path work is modelled.
- The time textures are sized `MAX_INSTANCES * FLOAT_SIZE` RGBA32 texels,
  that is 16000 entries for a 1000-entry array: sixteen times the array.
  This is modelled as written: only the first 1000 entries change.
- LightingPipeline.DecodeCommand: reads the slot, `slot0` and `count` by
  their value. The C++ copies each of them as raw `int32_t` bits out of the
  `F_r32` command buffer with `memcpy(&x, …, sizeof(&x))`
  (lighting_pipeline.cxx:150-153, 167-173), which also writes 8 bytes into
  a 4-byte local; the store-light slot is a `PN_float32` (light.h:23) used
  as an index. How the external producer packs these integers is not part
  of this model, so only the tag's misreading is stated as a finding.
- Layout.PackedSourceInfoMatchesUnpacked: describes the layout the size
  macros imply, with the packed `data` right after the 4-byte slot. As
  declared, `data` is an array of `unsigned char*` starting at byte 8
  (shadow_source.h:18), which the findings record with
  `Layout.PackedSourceDataAsWritten`; the rest of the model uses the
  intended layout.
- The depth pass's texture filters and wrap modes and the pass buffers'
  other frame-buffer properties are engine configuration; only bit
  depths, float depth, auxiliary targets and sRGB colour are recorded.
- Open question: the inclusive remove-sources range clears `count + 1`
  slots. It is kept as written, not reported as a defect, because the
  producer's convention for `count` is not part of this model.

## Findings

| source | as written | input that shows it | evidently intended | confidence | as-written member | corrected member |
|---|---|---|---|---|---|---|
| krender/core/lighting_pipeline.cxx:155-156 | remove-light clears `sizeof(LightInfo*)` = 8 bytes of the 36-byte record | `LightCommands.RemoveLightAsWrittenKeepsRadius`: a light of radius 7 in slot 0 keeps radius 7 after remove-light(0) | zero the whole record | high on 64-bit builds; not executed | `LightCommands.RemoveLightAsWritten` | `LightCommands.Apply` |
| krender/core/lighting_pipeline.cxx:176-177 | remove-sources clears `sizeof(ShadowSourceInfo*)` = 8 bytes of each 80-byte record | `LightCommands.RemoveSourcesAsWrittenKeepsUv`: source 5 with UV (1,1,1,1) keeps it after remove-sources(5, 0) | zero every record in the range | high on 64-bit builds; not executed | `LightCommands.RemoveSourcesAsWritten` | `LightCommands.Apply` |
| krender/core/lighting_pipeline.cxx:200-201 | the tag is copied as raw `int32_t` bits out of an `F_r32` float buffer | `LightingPipeline.TagAsWrittenDropsCommands`: store-light's tag 1.0 reads as 0x3F800000, so the switch ignores it | compare the tag's value | medium: depends on how the external writer packs integers; not executed | `LightingPipeline.TagSeenAsWritten` | `LightingPipeline.DecodeCommand` |
| krender/core/lighting_pipeline.cxx:132-138 | the table is allocated with `sizeof(LightData*)` bytes and its texture with `sizeof(_light_data)` texels | `LightingPipeline.LightDataTexelsAsWritten`: 8 texels (128 bytes) receive the 8256-byte copy at line 223 | `LIGHT_DATA_SIZE` bytes and 516 texels | high; not executed | `LightingPipeline.LightDataTexelsAsWritten` | `LightData.LightDataTexelCount` |
| krender/core/shadow_source.h:32-35 | the byte views are arrays of `unsigned char*` (also lines 18 and 29), so a shadow-source record takes 640 bytes | `LightData.SourcesAsWrittenMissTheCopy`: source 1 lands at byte 1216, not 656, and sources 12 to 95 lie past the 8256 bytes copied | arrays of `unsigned char`, 80-byte records as `LIGHT_DATA_SIZE` assumes | high on 64-bit builds; not executed | `LightData.SourceOffsetAsWritten` | `LightData.SerializedSourceSlot` |
| krender/core/shadow_source.h:16-19 | `ShadowSourcePacked_s.data` is an array of `unsigned char*`, so it is pointer-aligned at byte 8 and the store-source copy (lighting_pipeline.cxx:164) starts at `mvp[1]` | `Layout.PackedSourceDataAsWrittenDropsMvp0`: a source whose matrix starts with 1 yields packed `data` starting with 0 | `unsigned char data[SHADOW_SOURCE_INFO_SIZE]` right after the slot, as `SHADOW_SOURCE_DEF_SIZE` assumes | high on 64-bit builds; not executed | `Layout.PackedSourceDataAsWritten` | `Layout.PackedSourceInfoMatchesUnpacked` |
