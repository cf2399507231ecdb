/**
 * The render-pass graph of render_pipeline.cxx: scene and depth passes in
 * one ordered list, post passes in another, the wiring `add_render_pass`
 * does between them, the name lookups, and the per-frame `update` that
 * reloads every pass after a window resize and then runs the lighting
 * update.
 */
module RenderPipeline {
  import opened Wrappers
  import opened Layout
  import opened LightData
  import opened LightCommands
  import LightingPipeline
  import opened RenderPass

  datatype Pipeline = Pipeline(
    baseIndex: nat,
    shadowSize: nat,
    hasSrgb: bool,
    hasPcf: bool,
    hasAlpha: bool,
    winW: nat,
    winH: nat,
    scene: seq<Pass>,
    post: seq<Pass>,
    lighting: LightingPipeline.Lighting)

  /**
   * The constructor (render_pipeline.h:17-20, render_pipeline.cxx:16-27),
   * with its defaults: base index 0, shadow size 512, every flag off.  The
   * cached window size is the window's size at construction.  The light
   * table starts empty; the C++ leaves its `malloc`ed storage uninitialised.
   */
  function NewPipeline(winW: nat, winH: nat, index: nat := 0, shadowSize: nat := 512,
                       hasSrgb: bool := false, hasPcf: bool := false, hasAlpha: bool := false): (p: Pipeline)
    ensures p.winW == winW && p.winH == winH
    ensures p.scene == [] && p.post == []
    ensures p.baseIndex == index && p.shadowSize == shadowSize
    ensures p.hasSrgb == hasSrgb && p.hasPcf == hasPcf && p.hasAlpha == hasAlpha
    ensures Valid(p.lighting.table)
  {
    Pipeline(index, shadowSize, hasSrgb, hasPcf, hasAlpha, winW, winH, [], [],
             LightingPipeline.Lighting(EmptyTable(), []))
  }

  lemma ConstructorDefaults(winW: nat, winH: nat)
    ensures var p := NewPipeline(winW, winH);
            p.baseIndex == 0 && p.shadowSize == 512 && !p.hasSrgb && !p.hasPcf && !p.hasAlpha
  {
  }

  // ---------------------------------------------------------------------
  // Pass references

  predicate ValidRef(p: Pipeline, r: PassRef) {
    match r
    case InScene(i) => i < |p.scene|
    case InPost(i) => i < |p.post|
  }

  function PassAt(p: Pipeline, r: PassRef): Pass
    requires ValidRef(p, r)
  {
    match r
    case InScene(i) => p.scene[i]
    case InPost(i) => p.post[i]
  }

  /** All passes in lookup order: scene passes, then post passes. */
  function ScanOrder(p: Pipeline): seq<Pass> {
    p.scene + p.post
  }

  function Position(p: Pipeline, r: PassRef): nat {
    match r
    case InScene(i) => i
    case InPost(i) => |p.scene| + i
  }

  /** The pass a new post pass reads from: the last post pass, or else the last scene pass. */
  function PrevRef(p: Pipeline): (r: PassRef)
    requires |p.scene| + |p.post| > 0
    ensures ValidRef(p, r)
  {
    if |p.post| > 0 then InPost(|p.post| - 1) else InScene(|p.scene| - 1)
  }

  /** Every pass has the shape its constructor gives it. */
  predicate Shaped(p: Pipeline) {
    && (forall i :: 0 <= i < |p.scene| ==> PassShape(p.scene[i]) && !p.scene[i].kind.PostPass?)
    && (forall i :: 0 <= i < |p.post| ==> PassShape(p.post[i]) && p.post[i].kind.PostPass?)
  }

  /**
   * The chain of post passes: post pass 0 renders the result card of a
   * scene pass, every later post pass that of the post pass before it.
   */
  predicate PostChained(p: Pipeline) {
    && (|p.post| > 0 ==> exists k :: 0 <= k < |p.scene| && p.post[0].camera.scene == ResultCardOf(InScene(k)))
    && forall i :: 0 < i < |p.post| ==> p.post[i].camera.scene == ResultCardOf(InPost(i - 1))
  }

  // ---------------------------------------------------------------------
  // Shader inputs of a post pass

  /** One input per texture of every scene pass, under the texture's own name (render_pipeline.cxx:74-80). */
  function SceneTextureBindings(passes: seq<Pass>): (bs: seq<Binding>)
    ensures forall b :: b in bs ==> b.input == b.texture.name
    ensures forall i, j :: 0 <= i < |passes| && 0 <= j < |passes[i].textures| ==>
              Binding(passes[i].textures[j].name, passes[i].textures[j]) in bs
    ensures forall b :: b in bs ==> exists i, j :: 0 <= i < |passes| && 0 <= j < |passes[i].textures| && b.texture == passes[i].textures[j]
  {
    if passes == [] then []
    else SceneTextureBindings(passes[..|passes| - 1]) + TextureBindings(passes[|passes| - 1].textures)
  }

  function TextureBindings(ts: seq<Texture>): (bs: seq<Binding>)
    ensures |bs| == |ts|
    ensures forall j :: 0 <= j < |ts| ==> bs[j] == Binding(ts[j].name, ts[j])
  {
    seq(|ts|, j requires 0 <= j < |ts| => Binding(ts[j].name, ts[j]))
  }

  /**
   * The `prev_color` input (render_pipeline.cxx:83-95): texture 0 of the
   * previous pass, bound at most once (the loop stops at `j < 1`).
   */
  function PrevColorBinding(prev: Pass): (bs: seq<Binding>)
    ensures |bs| <= 1
    ensures |bs| == 1 <==> NumTextures(prev) > 0
    ensures |bs| == 1 ==> bs[0] == Binding("prev_color", prev.textures[0])
  {
    if |prev.textures| > 0 then [Binding("prev_color", prev.textures[0])] else []
  }

  /** The inputs in effect after a sequence of `set_shader_input` calls: a later call on a name wins. */
  function Resolve(bs: seq<Binding>): (r: map<string, Texture>)
    ensures bs == [] ==> r == map[]
    ensures |bs| > 0 ==> bs[|bs| - 1].input in r && r[bs[|bs| - 1].input] == bs[|bs| - 1].texture
  {
    if bs == [] then map[]
    else Resolve(bs[..|bs| - 1])[bs[|bs| - 1].input := bs[|bs| - 1].texture]
  }

  // ---------------------------------------------------------------------
  // add_render_pass

  /**
   * `add_render_pass` (render_pipeline.cxx:29-109), with the defaults of
   * render_pipeline.h:21-23 (no shader, mask 0).  A post pass reads the
   * result card of the previous pass, so there must be one: the C++ calls
   * `back()` on an empty list otherwise.
   */
  function AddPass(p: Pipeline, name: string, kind: PassKind, shader: Option<Shader> := None, mask: bv32 := 0): (q: Pipeline)
    requires kind.PostPass? ==> |p.scene| + |p.post| > 0
    ensures q.baseIndex == p.baseIndex && q.winW == p.winW && q.winH == p.winH && q.lighting == p.lighting
    ensures !kind.PostPass? ==>
              && q.post == p.post
              && |q.scene| == |p.scene| + 1 && q.scene[..|p.scene|] == p.scene
              && q.scene[|p.scene|].name == name && q.scene[|p.scene|].kind == kind
              && q.scene[|p.scene|].index == |p.scene| + p.baseIndex
              && q.scene[|p.scene|].camera.scene == MainScene
              && q.scene[|p.scene|].camera.mask == Some(mask)
    ensures kind.PostPass? ==>
              && q.scene == p.scene
              && |q.post| == |p.post| + 1 && q.post[..|p.post|] == p.post
              && q.post[|p.post|].name == name && q.post[|p.post|].kind == PostPass
              && q.post[|p.post|].index == |p.scene| + |p.post| + p.baseIndex
              && q.post[|p.post|].camera.scene == ResultCardOf(PrevRef(p))
              && q.post[|p.post|].inputs == SceneTextureBindings(p.scene) + PrevColorBinding(PassAt(p, PrevRef(p)))
              && q.post[|p.post|].shader == shader
    ensures q == p.(scene := q.scene, post := q.post)
  {
    match kind
    case ScenePass =>
      var sp := NewScenePass(name, |p.scene| + p.baseIndex);
      p.(scene := p.scene + [sp.(camera := sp.camera.(scene := MainScene, mask := Some(mask)))])
    case DepthPass =>
      var dp := NewDepthPass(name, |p.scene| + p.baseIndex, p.hasSrgb, p.hasAlpha);
      p.(scene := p.scene + [dp.(camera := dp.camera.(scene := MainScene, mask := Some(mask)))])
    case PostPass =>
      var prev := PrevRef(p);
      var pp := NewPostPass(name, |p.scene| + |p.post| + p.baseIndex);
      var wired := pp.(inputs := SceneTextureBindings(p.scene) + PrevColorBinding(PassAt(p, prev)),
                       camera := pp.camera.(scene := ResultCardOf(prev)));
      // render_pipeline.cxx:99-100: the shader is installed only when one is given
      var shaded := if shader.Some? then wired.(shader := shader) else wired;
      p.(post := p.post + [shaded])
  }

  // ---------------------------------------------------------------------
  // Lookups

  /** The first position from `from` on whose pass is named `name`. */
  function FindFrom(passes: seq<Pass>, name: string, from: nat): (r: Option<nat>)
    requires from <= |passes|
    ensures r.Some? ==> from <= r.value < |passes| && passes[r.value].name == name
    ensures r.Some? ==> forall j :: from <= j < r.value ==> passes[j].name != name
    ensures r.None? ==> forall j :: from <= j < |passes| ==> passes[j].name != name
    decreases |passes| - from
  {
    if from == |passes| then None
    else if passes[from].name == name then Some(from)
    else FindFrom(passes, name, from + 1)
  }

  /**
   * The scan shared by every lookup (render_pipeline.cxx:111-165): the scene
   * passes first, then the post passes, `strcmp` on the name, first match.
   */
  function FindPass(p: Pipeline, name: string): (r: Option<PassRef>)
    ensures r.Some? ==> FirstNamed(p, r.value, name)
    ensures r.None? <==> forall j :: 0 <= j < |ScanOrder(p)| ==> ScanOrder(p)[j].name != name
  {
    match FindFrom(p.scene, name, 0)
    case Some(i) => Some(InScene(i))
    case None =>
      match FindFrom(p.post, name, 0)
      case Some(i) => Some(InPost(i))
      case None => None
  }

  /** `r` is the first pass named `name` in lookup order. */
  predicate FirstNamed(p: Pipeline, r: PassRef, name: string) {
    && ValidRef(p, r)
    && PassAt(p, r).name == name
    && Position(p, r) < |ScanOrder(p)|
    && ScanOrder(p)[Position(p, r)] == PassAt(p, r)
    && forall j :: 0 <= j < Position(p, r) ==> ScanOrder(p)[j].name != name
  }

  predicate HasPass(p: Pipeline, name: string) {
    exists j :: 0 <= j < |ScanOrder(p)| && ScanOrder(p)[j].name == name
  }

  /** A card handle: the quad a pass reads from, or the quad showing its result. */
  datatype Card = SourceCard(owner: PassRef) | ResultCard(owner: PassRef)

  /** `get_camera` (render_pipeline.cxx:111-123); `None` is `NodePath::not_found()`. */
  function GetCamera(p: Pipeline, name: string): (r: Option<Camera>)
    ensures r.None? <==> !HasPass(p, name)
    ensures r.Some? ==> exists ref :: FirstNamed(p, ref, name) && r.value == PassAt(p, ref).camera
  {
    match FindPass(p, name)
    case Some(ref) => Some(PassAt(p, ref).camera)
    case None => None
  }

  /** `get_source_card` (render_pipeline.cxx:125-137). */
  function GetSourceCard(p: Pipeline, name: string): (r: Option<Card>)
    ensures r.None? <==> !HasPass(p, name)
    ensures r.Some? ==> r.value.SourceCard? && FirstNamed(p, r.value.owner, name)
  {
    match FindPass(p, name)
    case Some(ref) => Some(SourceCard(ref))
    case None => None
  }

  /** `get_result_card` (render_pipeline.cxx:139-151). */
  function GetResultCard(p: Pipeline, name: string): (r: Option<Card>)
    ensures r.None? <==> !HasPass(p, name)
    ensures r.Some? ==> r.value.ResultCard? && FirstNamed(p, r.value.owner, name)
  {
    match FindPass(p, name)
    case Some(ref) => Some(ResultCard(ref))
    case None => None
  }

  /** The outcome of `get_texture(name, j)`: `NULL`, `std::out_of_range`, or a texture. */
  datatype TextureLookup = Missing | OutOfRange | Found(texture: Texture)

  /** `get_texture` (render_pipeline.cxx:153-165). */
  function GetTexture(p: Pipeline, name: string, j: nat): (r: TextureLookup)
    ensures r.Missing? <==> !HasPass(p, name)
    ensures !r.Missing? ==>
              exists ref :: (FirstNamed(p, ref, name)
                             && (r.OutOfRange? <==> j >= NumTextures(PassAt(p, ref)))
                             && (r.Found? ==> r.texture == PassAt(p, ref).textures[j]))
  {
    match FindPass(p, name)
    case None => Missing
    case Some(ref) =>
      match TextureAt(PassAt(p, ref), j)
      case Some(t) => Found(t)
      case None => OutOfRange
  }

  // ---------------------------------------------------------------------
  // update

  /** What `update` does, in order. */
  datatype Event = Configure(width: nat, height: nat) | ReloadShader(pass: PassRef) | LightingUpdate

  predicate LightingPreconditions(p: Pipeline, commandData: seq<Scalar>, n: nat) {
    && Valid(p.lighting.table)
    && |commandData| == LightingPipeline.CommandDataEntries && n <= GpuCommandListLimit
    && AllWellFormed(LightingPipeline.DecodeBatch(commandData, n))
  }

  /**
   * `es` reloads every pass of `p` exactly once and nothing else, all
   * scene passes before any post pass.
   */
  ghost predicate ReloadsEachPassOnce(p: Pipeline, es: seq<Event>) {
    && (forall i :: 0 <= i < |es| ==> es[i].ReloadShader? && ValidRef(p, es[i].pass))
    && (forall i, j :: 0 <= i < j < |es| ==> es[i] != es[j])
    && (forall i, j :: 0 <= i < j < |es| ==> !(es[i].pass.InPost? && es[j].pass.InScene?))
    && (forall r :: ValidRef(p, r) ==> exists i :: 0 <= i < |es| && es[i] == ReloadShader(r))
  }

  /**
   * `update` (render_pipeline.cxx:167-181).  `winW`/`winH` are the
   * window's current size.  When it differs from the cached size, the cache
   * takes the new size, the shader configuration is regenerated once for
   * it, and every scene pass and then every post pass reloads its shader
   * exactly once; otherwise nothing is reloaded.  The lighting update runs
   * last either way.  `_configure` and `reload_shader` are not part of this
   * model and appear as events.
   */
  method Update(p: Pipeline, winW: nat, winH: nat, commandData: seq<Scalar>, n: nat) returns (q: Pipeline, events: seq<Event>)
    requires LightingPreconditions(p, commandData, n)
    ensures q.scene == p.scene && q.post == p.post && q.baseIndex == p.baseIndex
    ensures q.winW == winW && q.winH == winH
    ensures q == p.(winW := winW, winH := winH, lighting := q.lighting)
    ensures |events| >= 1 && events[|events| - 1] == LightingUpdate
    ensures (p.winW != winW || p.winH != winH) ==>
              (events[0] == Configure(winW, winH) && ReloadsEachPassOnce(p, events[1 .. |events| - 1]))
    ensures (p.winW == winW && p.winH == winH) ==> events == [LightingUpdate]
    ensures Valid(q.lighting.table)
    ensures n == 0 ==> q.lighting == p.lighting
    ensures n > 0 ==>
              (q.lighting.table == ApplyAll(p.lighting.table, LightingPipeline.DecodeBatch(commandData, n))
               && q.lighting.lightData == Serialize(q.lighting.table))
  {
    var resized := p.winW != winW || p.winH != winH;
    events := [];
    if resized {
      var reloads := ReloadAll(p);
      events := [Configure(winW, winH)] + reloads;
      assert events[1..] == reloads;
    }
    var lighting := LightingPipeline.Update(p.lighting, commandData, n);
    q := p.(winW := winW, winH := winH, lighting := lighting);
    events := events + [LightingUpdate];
  }

  /** The two reload loops of render_pipeline.cxx:172-177. */
  method ReloadAll(p: Pipeline) returns (es: seq<Event>)
    ensures ReloadsEachPassOnce(p, es)
  {
    es := [];
    var i := 0;
    while i < |p.scene|
      invariant 0 <= i <= |p.scene|
      invariant es == SceneReloads(i)
    {
      es := es + [ReloadShader(InScene(i))];
      i := i + 1;
    }
    var j := 0;
    while j < |p.post|
      invariant 0 <= j <= |p.post|
      invariant es == SceneReloads(|p.scene|) + PostReloads(j)
    {
      es := es + [ReloadShader(InPost(j))];
      j := j + 1;
    }
    ReloadsOnce(p, es);
  }

  function SceneReloads(n: nat): (es: seq<Event>)
    ensures |es| == n && forall i :: 0 <= i < n ==> es[i] == ReloadShader(InScene(i))
  {
    if n == 0 then [] else SceneReloads(n - 1) + [ReloadShader(InScene(n - 1))]
  }

  function PostReloads(n: nat): (es: seq<Event>)
    ensures |es| == n && forall i :: 0 <= i < n ==> es[i] == ReloadShader(InPost(i))
  {
    if n == 0 then [] else PostReloads(n - 1) + [ReloadShader(InPost(n - 1))]
  }

  /** Scene reloads followed by post reloads name each pass once. */
  lemma ReloadsOnce(p: Pipeline, es: seq<Event>)
    requires es == SceneReloads(|p.scene|) + PostReloads(|p.post|)
    ensures ReloadsEachPassOnce(p, es)
  {
    var s := |p.scene|;
    assert forall i :: 0 <= i < s ==> es[i] == ReloadShader(InScene(i));
    assert forall i :: s <= i < |es| ==> es[i] == ReloadShader(InPost(i - s));
    forall r | ValidRef(p, r)
      ensures exists i :: 0 <= i < |es| && es[i] == ReloadShader(r)
    {
      match r
      case InScene(k) => assert es[k] == ReloadShader(r);
      case InPost(k) => assert es[s + k] == ReloadShader(r);
    }
  }

  // ---------------------------------------------------------------------
  // Properties of the graph

  /** Which names `Resolve` binds: exactly the inputs of some call. */
  lemma {:induction false} ResolveKeys(bs: seq<Binding>, k: string)
    ensures k in Resolve(bs) <==> exists i :: 0 <= i < |bs| && bs[i].input == k
  {
    if bs != [] {
      var init := bs[..|bs| - 1];
      ResolveKeys(init, k);
      if k != bs[|bs| - 1].input && k in Resolve(bs) {
        var i :| 0 <= i < |init| && init[i].input == k;
        assert bs[i] == init[i];
      }
      if exists i :: 0 <= i < |bs| && bs[i].input == k {
        var i :| 0 <= i < |bs| && bs[i].input == k;
        if i < |init| { assert init[i] == bs[i]; }
      }
    }
  }

  /** The value `Resolve` binds a name to is the texture of the last call on that name. */
  lemma {:induction false} ResolveLast(bs: seq<Binding>, i: nat)
    requires i < |bs| && forall j :: i < j < |bs| ==> bs[j].input != bs[i].input
    ensures bs[i].input in Resolve(bs) && Resolve(bs)[bs[i].input] == bs[i].texture
  {
    if i < |bs| - 1 {
      var init := bs[..|bs| - 1];
      assert init[i] == bs[i];
      ResolveLast(init, i);
    }
  }

  /** Every value `Resolve` binds comes from a call on that name. */
  lemma {:induction false} ResolveFrom(bs: seq<Binding>, k: string)
    requires k in Resolve(bs)
    ensures exists i :: 0 <= i < |bs| && bs[i].input == k && bs[i].texture == Resolve(bs)[k]
  {
    var init := bs[..|bs| - 1];
    if k != bs[|bs| - 1].input {
      ResolveFrom(init, k);
      var i :| 0 <= i < |init| && init[i].input == k && init[i].texture == Resolve(init)[k];
      assert bs[i] == init[i];
    }
  }

  lemma {:induction false} SceneTextureBound(passes: seq<Pass>, i: nat, j: nat)
    requires i < |passes| && j < |passes[i].textures|
    ensures Binding(passes[i].textures[j].name, passes[i].textures[j]) in SceneTextureBindings(passes)
  {
    var n := |passes| - 1;
    if i < n {
      assert passes[..n][i] == passes[i];
      SceneTextureBound(passes[..n], i, j);
    } else {
      assert TextureBindings(passes[n].textures)[j] == Binding(passes[i].textures[j].name, passes[i].textures[j]);
    }
  }

  /**
   * What `Resolve` makes of the calls a post pass receives: every texture
   * of every scene pass under its own name, `prev_color` bound to texture 0
   * of `prev`, and no name other than `prev_color` bound to a texture of
   * another name.
   */
  lemma ResolvedPostInputs(scenePasses: seq<Pass>, prev: Pass)
    ensures var inputs := Resolve(SceneTextureBindings(scenePasses) + PrevColorBinding(prev));
            && (forall i, j :: 0 <= i < |scenePasses| && 0 <= j < |scenePasses[i].textures| ==> scenePasses[i].textures[j].name in inputs)
            && (NumTextures(prev) > 0 ==> "prev_color" in inputs && inputs["prev_color"] == prev.textures[0])
            && (forall k :: k in inputs && k != "prev_color" ==> inputs[k].name == k)
  {
    var scene := SceneTextureBindings(scenePasses);
    var bs := scene + PrevColorBinding(prev);
    forall i, j | 0 <= i < |scenePasses| && 0 <= j < |scenePasses[i].textures|
      ensures scenePasses[i].textures[j].name in Resolve(bs)
    {
      var t := scenePasses[i].textures[j];
      SceneTextureBound(scenePasses, i, j);
      var x :| 0 <= x < |scene| && scene[x] == Binding(t.name, t);
      assert bs[x] == scene[x];
      ResolveKeys(bs, t.name);
    }
    if NumTextures(prev) > 0 {
      ResolveLast(bs, |bs| - 1);
    }
    forall k | k in Resolve(bs) && k != "prev_color"
      ensures Resolve(bs)[k].name == k
    {
      ResolveFrom(bs, k);
      var i :| 0 <= i < |bs| && bs[i].input == k && bs[i].texture == Resolve(bs)[k];
      assert i < |scene|;
      assert bs[i] == scene[i] && scene[i] in scene;
    }
  }

  /** The inputs a post pass added to the pipeline sees (render_pipeline.cxx:78-100). */
  lemma PostPassInputs(p: Pipeline, name: string, shader: Option<Shader>)
    requires |p.scene| + |p.post| > 0
    ensures var inputs := Resolve(AddPass(p, name, PostPass, shader).post[|p.post|].inputs);
            var prev := PassAt(p, PrevRef(p));
            && (forall i, j :: 0 <= i < |p.scene| && 0 <= j < |p.scene[i].textures| ==> p.scene[i].textures[j].name in inputs)
            && (NumTextures(prev) > 0 ==> "prev_color" in inputs && inputs["prev_color"] == prev.textures[0])
            && (forall k :: k in inputs && k != "prev_color" ==> inputs[k].name == k)
  {
    var q := AddPass(p, name, PostPass, shader);
    assert q.post[|p.post|].inputs == SceneTextureBindings(p.scene) + PrevColorBinding(PassAt(p, PrevRef(p)));
    ResolvedPostInputs(p.scene, PassAt(p, PrevRef(p)));
  }

  /** Adding a pass keeps every pass in the shape its constructor gives it. */
  lemma AddPassKeepsShape(p: Pipeline, name: string, kind: PassKind, shader: Option<Shader>, mask: bv32)
    requires kind.PostPass? ==> |p.scene| + |p.post| > 0
    requires Shaped(p)
    ensures Shaped(AddPass(p, name, kind, shader, mask))
  {
    var q := AddPass(p, name, kind, shader, mask);
    match kind
    case ScenePass =>
      var sp := NewScenePass(name, |p.scene| + p.baseIndex);
      assert q.scene[|p.scene|] == sp.(camera := sp.camera.(scene := MainScene, mask := Some(mask)));
      assert PassShape(q.scene[|p.scene|]);
      assert forall i :: 0 <= i < |p.scene| ==> q.scene[i] == p.scene[i];
    case DepthPass =>
      var dp := NewDepthPass(name, |p.scene| + p.baseIndex, p.hasSrgb, p.hasAlpha);
      assert q.scene[|p.scene|] == dp.(camera := dp.camera.(scene := MainScene, mask := Some(mask)));
      assert PassShape(q.scene[|p.scene|]);
      assert forall i :: 0 <= i < |p.scene| ==> q.scene[i] == p.scene[i];
    case PostPass =>
      var pp := NewPostPass(name, |p.scene| + |p.post| + p.baseIndex);
      assert q.post[|p.post|].camera.name == pp.camera.name && q.post[|p.post|].textures == pp.textures;
      assert PassShape(q.post[|p.post|]);
      assert forall i :: 0 <= i < |p.post| ==> q.post[i] == p.post[i];
  }

  /**
   * A depth pass takes the pipeline's `has_srgb` and `has_alpha`
   * (render_pipeline.cxx:47-49): its buffer asks for sRGB colour exactly
   * when the pipeline has it, and clears to alpha 0 exactly when the
   * pipeline has alpha.
   */
  lemma AddDepthPassFollowsFlags(p: Pipeline, name: string, mask: bv32)
    ensures var d := AddPass(p, name, DepthPass, None, mask).scene[|p.scene|];
            && d.buffer.props.Some? && (d.buffer.props.value.srgbColor <==> p.hasSrgb)
            && d.buffer.clearAlpha == Some(if p.hasAlpha then 0 else 1)
  {
    var dp := NewDepthPass(name, |p.scene| + p.baseIndex, p.hasSrgb, p.hasAlpha);
    assert AddPass(p, name, DepthPass, None, mask).scene[|p.scene|] == dp.(camera := dp.camera.(scene := MainScene, mask := Some(mask)));
  }

  /** Adding a pass keeps the post passes chained (render_pipeline.cxx:78-83). */
  lemma AddPassKeepsChain(p: Pipeline, name: string, kind: PassKind, shader: Option<Shader>, mask: bv32)
    requires kind.PostPass? ==> |p.scene| + |p.post| > 0
    requires PostChained(p)
    ensures PostChained(AddPass(p, name, kind, shader, mask))
  {
    var q := AddPass(p, name, kind, shader, mask);
    if kind.PostPass? {
      assert forall i :: 0 <= i < |p.post| ==> q.post[i] == p.post[i];
      if |p.post| == 0 {
        assert q.post[0].camera.scene == ResultCardOf(InScene(|p.scene| - 1));
      }
    } else {
      if |p.post| > 0 {
        var k :| 0 <= k < |p.scene| && p.post[0].camera.scene == ResultCardOf(InScene(k));
        assert 0 <= k < |q.scene|;
      }
    }
  }

  /**
   * A scene pass followed by two post passes: the first post pass renders
   * the scene pass's result card, the second the first post pass's.
   */
  lemma ScenePostPostChain(p: Pipeline, a: string, b: string, c: string)
    requires p.scene == [] && p.post == []
    ensures var p1 := AddPass(p, a, ScenePass);
            var p2 := AddPass(p1, b, PostPass);
            var p3 := AddPass(p2, c, PostPass);
            && |p3.scene| == 1 && |p3.post| == 2
            && p3.post[0].camera.scene == ResultCardOf(InScene(0))
            && p3.post[1].camera.scene == ResultCardOf(InPost(0))
  {
  }

  lemma {:induction false} FindFromAppend(passes: seq<Pass>, x: Pass, name: string, from: nat)
    requires from <= |passes| && x.name != name
    ensures FindFrom(passes + [x], name, from) == FindFrom(passes, name, from)
    decreases |passes| - from
  {
    if from < |passes| {
      assert (passes + [x])[from] == passes[from];
      FindFromAppend(passes, x, name, from + 1);
    }
  }

  lemma FindPassExtend(p: Pipeline, q: Pipeline, other: string)
    requires (q.post == p.post && |q.scene| == |p.scene| + 1 && q.scene[..|p.scene|] == p.scene && q.scene[|p.scene|].name != other)
          || (q.scene == p.scene && |q.post| == |p.post| + 1 && q.post[..|p.post|] == p.post && q.post[|p.post|].name != other)
    ensures FindPass(q, other) == FindPass(p, other)
    ensures FindPass(p, other).Some? ==> ValidRef(p, FindPass(p, other).value) && PassAt(q, FindPass(p, other).value) == PassAt(p, FindPass(p, other).value)
  {
    if q.post == p.post && |q.scene| == |p.scene| + 1 && q.scene[..|p.scene|] == p.scene && q.scene[|p.scene|].name != other {
      assert q.scene == p.scene + [q.scene[|p.scene|]];
      FindFromAppend(p.scene, q.scene[|p.scene|], other, 0);
    } else {
      assert q.post == p.post + [q.post[|p.post|]];
      FindFromAppend(p.post, q.post[|p.post|], other, 0);
    }
  }

  /** Adding a pass changes no lookup of another name. */
  lemma AddPassKeepsOtherLookups(p: Pipeline, name: string, kind: PassKind, shader: Option<Shader>, mask: bv32, other: string)
    requires kind.PostPass? ==> |p.scene| + |p.post| > 0
    requires other != name
    ensures var q := AddPass(p, name, kind, shader, mask);
            && GetCamera(q, other) == GetCamera(p, other)
            && GetSourceCard(q, other) == GetSourceCard(p, other)
            && GetResultCard(q, other) == GetResultCard(p, other)
            && forall j :: GetTexture(q, other, j) == GetTexture(p, other, j)
  {
    var q := AddPass(p, name, kind, shader, mask);
    FindPassExtend(p, q, other);
  }

  /** At most one pass is the first of a name: lookups are deterministic. */
  lemma FirstNamedUnique(p: Pipeline, r1: PassRef, r2: PassRef, name: string)
    requires FirstNamed(p, r1, name) && FirstNamed(p, r2, name)
    ensures r1 == r2
  {
  }
}
