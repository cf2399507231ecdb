/**
 * One render pass of the pass graph: its buffer request, its output
 * textures, its camera and the shader inputs bound on its source card.
 * Engine objects (buffers, textures, cameras, cards, shaders) are records
 * of what the pass asked the engine for, not the objects themselves.
 *
 * Three pass kinds exist: scene passes (scene_pass.cxx), depth passes
 * (depth_pass.cxx) and post passes (post_pass.cxx).  render_pass.cxx is an
 * older snapshot of the base class; its texture list, buffer sort and
 * camera choice are modelled as `BaseTextures`, `BaseBuffer` and
 * `BaseCamera`, and the subclasses take precedence where they disagree.
 */
module RenderPass {
  import opened Wrappers

  /** The `type` argument of `add_render_pass`; anything but scene or depth is a post pass. */
  datatype PassKind = ScenePass | DepthPass | PostPass

  /** The buffer plane a texture is bound to. */
  datatype Plane = ColorPlane | DepthPlane | AuxRgba0 | AuxRgba1

  datatype Texture = Texture(name: string, plane: Plane)

  /** Frame-buffer properties a pass requests explicitly. */
  datatype FrameProps = FrameProps(rgbaBits: nat, depthBits: nat, floatDepth: bool, auxRgba: nat, srgbColor: bool)

  /**
   * A buffer request.  `None` marks what a pass leaves to the five-argument
   * `_make_fbo` of the newer base class, which is not part of this model.
   */
  datatype Buffer = Buffer(sort: int, requestedTextures: Option<nat>, props: Option<FrameProps>, clearAlpha: Option<nat>)

  datatype Lens =
    | MainLens   // the main camera's own lens, shared
    | Orthographic(filmWidth: int, filmHeight: int, offsetX: int, offsetY: int, near: int, far: int)

  /** The node a pass camera is attached under. */
  datatype CameraParent = MainCamera | Camera2d

  /** Where a pass sits: position in the scene-pass list or in the post-pass list. */
  datatype PassRef = InScene(pos: nat) | InPost(pos: nat)

  /** What a camera renders: nothing yet, the main scene, or another pass's result card. */
  datatype SceneRoot = Unset | MainScene | ResultCardOf(owner: PassRef)

  datatype Camera = Camera(name: string, parent: CameraParent, lens: Lens, regionSort: int, scene: SceneRoot, mask: Option<bv32>)

  /** An opaque shader program handle. */
  datatype Shader = Shader(id: nat)

  /** A `set_shader_input` call on a pass's source card. */
  datatype Binding = Binding(input: string, texture: Texture)

  datatype Pass = Pass(
    name: string,
    kind: PassKind,
    index: nat,
    buffer: Buffer,
    textures: seq<Texture>,
    camera: Camera,
    resultCardName: Option<string>,
    inputs: seq<Binding>,
    shader: Option<Shader>)

  // ---------------------------------------------------------------------
  // Textures of a pass

  /** `get_num_textures` (render_pass.cxx:46-48). */
  function NumTextures(p: Pass): nat {
    |p.textures|
  }

  /**
   * `get_texture(i)` (render_pass.cxx:42-44): `.at(i)` throws
   * `std::out_of_range` past the end, modelled as `None`.
   */
  function TextureAt(p: Pass, i: nat): (r: Option<Texture>)
    ensures r.Some? <==> i < NumTextures(p)
    ensures r.Some? ==> r.value == p.textures[i]
  {
    if i < |p.textures| then Some(p.textures[i]) else None
  }

  /**
   * The base texture list (render_pass.cxx:62-70, 75-99): the colour
   * texture always comes first; an index-0 pass has only that, every other
   * pass also gets `<name>_depth` and `<name>_emissive`.
   *
   * The C++ allocates each name without room for its terminating NUL
   * (render_pass.cxx:24, 62, 82, 91); the model keeps the intended names.
   */
  function BaseTextures(name: string, index: nat): (ts: seq<Texture>)
    ensures 1 <= |ts| && ts[0] == Texture(name + "_color", ColorPlane)
    ensures |ts| == 1 <==> index == 0
    ensures index != 0 ==>
              |ts| == 3 && ts[1] == Texture(name + "_depth", DepthPlane) && ts[2] == Texture(name + "_emissive", AuxRgba0)
  {
    [Texture(name + "_color", ColorPlane)]
      + (if index == 0 then [] else [Texture(name + "_depth", DepthPlane), Texture(name + "_emissive", AuxRgba0)])
  }

  /**
   * The base buffer request (render_pass.cxx:50-73): sort key `index - 10`,
   * one bit per colour channel, and depth bits and an auxiliary RGBA target
   * only for the index-0 pass.
   */
  function BaseBuffer(index: nat): (b: Buffer)
    ensures b.sort == index - 10
    ensures b.props.Some? && b.props.value.rgbaBits == 1
    ensures b.props.value.depthBits > 0 <==> index == 0
    ensures b.props.value.auxRgba > 0 <==> index == 0
    ensures !b.props.value.srgbColor
    ensures b.clearAlpha == Some(1)
  {
    Buffer(index - 10, None, Some(FrameProps(1, if index == 0 then 1 else 0, false, if index == 0 then 1 else 0, false)), Some(1))
  }

  /** The orthographic lens of `_make_camera2d` for the bounds left, right, bottom, top. */
  function OrthoLens(left: int, right: int, bottom: int, top: int): Lens
    requires (right + left) % 2 == 0 && (top + bottom) % 2 == 0
  {
    Orthographic(right - left, top - bottom, (right + left) / 2, (top + bottom) / 2, -1000, 1000)
  }

  /** The full-screen lens of the 2D cameras (render_pass.cxx:122-129, post_pass.cxx:24-31). */
  function FullScreenLens(): (l: Lens)
    ensures l == Orthographic(2, 2, 0, 0, -1000, 1000)
  {
    OrthoLens(-1, 1, -1, 1)
  }

  /**
   * The camera of the base class (render_pass.cxx:27-31, 104-139): the
   * index-0 pass gets a 3D camera sharing the main lens, every other pass a
   * 2D orthographic one.
   */
  function BaseCamera(name: string, index: nat, parent: CameraParent): (c: Camera)
    ensures c.name == name + "_camera" && c.parent == parent
    ensures c.lens == MainLens <==> index == 0
    ensures index != 0 ==> c.lens == FullScreenLens() && c.regionSort == 10
    ensures index == 0 ==> c.regionSort == 0
  {
    if index == 0 then Camera(name + "_camera", parent, MainLens, 0, Unset, None)
    else Camera(name + "_camera", parent, FullScreenLens(), 10, Unset, None)
  }

  // ---------------------------------------------------------------------
  // What every pass of each kind looks like

  /** The three textures a scene pass adds after the base ones (scene_pass.cxx:21-46). */
  function SceneExtraTextures(): seq<Texture> {
    [Texture("depth", DepthPlane), Texture("emissive", AuxRgba0), Texture("selector", AuxRgba1)]
  }

  /**
   * The shape every constructed pass has: camera `<name>_camera`, a
   * non-empty texture list, and per kind the sort keys, lens and textures
   * the subclass constructors choose.
   */
  predicate PassShape(p: Pass) {
    && p.camera.name == p.name + "_camera"
    && 1 <= |p.textures|
    && (p.camera.lens == MainLens <==> !p.kind.PostPass?)
    && match p.kind
       case ScenePass =>
         && p.buffer.sort == p.index && p.camera.regionSort == p.index
         && p.buffer.requestedTextures == Some(4)
         && p.camera.parent == MainCamera
         && p.textures[0].plane == ColorPlane
         && |p.textures| >= 4 && p.textures[|p.textures| - 3..] == SceneExtraTextures()
         && p.resultCardName.None?
       case DepthPass =>
         && p.buffer.sort == p.index && p.camera.regionSort == p.index
         && p.buffer.requestedTextures == Some(1)
         && p.camera.parent == MainCamera
         && p.textures == [Texture(p.name + "_depth", DepthPlane)]
         && p.buffer.props.Some?
         && p.buffer.props.value.(srgbColor := false) == FrameProps(0, 32, true, 0, false)
         && p.resultCardName == Some(p.name + "_card")
       case PostPass =>
         && p.buffer.sort == p.index + 10 && p.camera.regionSort == p.index + 10
         && p.buffer.requestedTextures == Some(1)
         && p.camera.parent == Camera2d
         && p.camera.lens == FullScreenLens()
         && p.textures[0].plane == ColorPlane
         && p.resultCardName.None?
  }

  /**
   * `ScenePass` (scene_pass.cxx:4-13): buffer and display-region sort equal
   * the pass index, four textures requested, the base textures followed by
   * depth, emissive and selector, and a 3D camera reusing the main lens.
   */
  function NewScenePass(name: string, index: nat): (p: Pass)
    ensures PassShape(p) && p.kind == ScenePass && p.name == name && p.index == index
    ensures p.textures[..|p.textures| - 3] == BaseTextures(name, index)
    ensures p.inputs == [] && p.shader.None? && p.camera.scene.Unset?
  {
    Pass(name, ScenePass, index, Buffer(index, Some(4), None, None),
         BaseTextures(name, index) + SceneExtraTextures(),
         Camera(name + "_camera", MainCamera, MainLens, index, Unset, None),
         None, [], None)
  }

  /**
   * `DepthPass` (depth_pass.cxx:4-70): a depth-only buffer (no colour bits,
   * 32-bit float depth, no auxiliary targets) sorted by the pass index, one
   * texture `<name>_depth` on the depth plane, a clear colour whose alpha is
   * 0 with `hasAlpha` and 1 otherwise, sRGB colour exactly with
   * `hasSrgb`, and a result card named `<name>_card`.
   */
  function NewDepthPass(name: string, index: nat, hasSrgb: bool, hasAlpha: bool): (p: Pass)
    ensures PassShape(p) && p.kind == DepthPass && p.name == name && p.index == index
    ensures p.buffer.clearAlpha == Some(if hasAlpha then 0 else 1)
    ensures p.buffer.props.Some? && (p.buffer.props.value.srgbColor <==> hasSrgb)
    ensures p.inputs == [] && p.shader.None? && p.camera.scene.Unset?
  {
    // `Some(1)` is the texture count the constructor hands to `_make_fbo`
    // (depth_pass.cxx:8); `DepthPass::_make_fbo` ignores it and makes the
    // buffer with no texture, then clears its render textures (depth_pass.cxx:26-27).
    Pass(name, DepthPass, index,
         Buffer(index, Some(1), Some(FrameProps(0, 32, true, 0, hasSrgb)), Some(if hasAlpha then 0 else 1)),
         [Texture(name + "_depth", DepthPlane)],
         Camera(name + "_camera", MainCamera, MainLens, index, Unset, None),
         Some(name + "_card"), [], None)
  }

  /**
   * `PostPass` (post_pass.cxx:7-41): buffer and display-region sort
   * `index + 10`, one texture requested, the base textures, and a 2D
   * orthographic camera (film 2x2, offset 0, near/far -1000/1000) under
   * the 2D camera.
   *
   * post_pass.cxx:13 and scene_pass.cxx:10 allocate the camera name
   * without room for its NUL; the model keeps the intended name.
   */
  function NewPostPass(name: string, index: nat): (p: Pass)
    ensures PassShape(p) && p.kind == PostPass && p.name == name && p.index == index
    ensures p.textures == BaseTextures(name, index)
    ensures p.inputs == [] && p.shader.None? && p.camera.scene.Unset?
  {
    Pass(name, PostPass, index, Buffer(index + 10, Some(1), None, None),
         BaseTextures(name, index),
         Camera(name + "_camera", Camera2d, FullScreenLens(), index + 10, Unset, None),
         None, [], None)
  }
}
