/**
 * Instance buffers (instance.h, instance.cxx): an `InstanceNode` keeps the
 * current and previous transform of up to `MaxInstances` instances and
 * their current and previous time, and copies all four arrays into buffer
 * textures that the shaders read.
 *
 * A matrix is sixteen 32-bit entries; a texture image is a sequence of
 * 32-bit entries, four per RGBA32 texel.
 */
module Instance {
  import opened Layout

  // instance.h:7-13
  const MaxInstances: nat := 1000
  const FloatSize: nat := 4
  const Mat4Height: nat := 4
  const Mat4Width: nat := 4
  const Mat4Size: nat := Mat4Width * Mat4Height * FloatSize
  const RgbaChannelCount: nat := 4
  const RgbaMat4Size: nat := (Mat4Width * Mat4Height) / RgbaChannelCount

  /** Entries per matrix, and bytes per RGBA32 texel. */
  const Mat4Entries: nat := Mat4Width * Mat4Height
  const Rgba32TexelSize: nat := RgbaChannelCount * FloatSize

  /** Texel counts given to `setup_buffer_texture` (instance.cxx:16-33). */
  const TransformTexels: nat := RgbaMat4Size * MaxInstances
  const TimeTexels: nat := MaxInstances * FloatSize

  /** A buffer texture: its texel count and its RAM image, four entries per texel. */
  datatype BufferTexture = BufferTexture(texels: nat, image: seq<Scalar>)

  predicate SizedTexture(t: BufferTexture, texels: nat) {
    t.texels == texels && |t.image| == texels * RgbaChannelCount
  }

  datatype InstanceNode = InstanceNode(
    name: string,
    count: nat,
    transforms: seq<Mat4>,
    prevTransforms: seq<Mat4>,
    times: seq<Scalar>,
    prevTimes: seq<Scalar>,
    transformTex: BufferTexture,
    prevTransformTex: BufferTexture,
    timeTex: BufferTexture,
    prevTimeTex: BufferTexture)

  /** Every array holds `MaxInstances` elements and every texture has its size. */
  predicate Valid(n: InstanceNode) {
    && n.count <= MaxInstances
    && |n.transforms| == MaxInstances && |n.prevTransforms| == MaxInstances
    && |n.times| == MaxInstances && |n.prevTimes| == MaxInstances
    && SizedTexture(n.transformTex, TransformTexels) && SizedTexture(n.prevTransformTex, TransformTexels)
    && SizedTexture(n.timeTex, TimeTexels) && SizedTexture(n.prevTimeTex, TimeTexels)
  }

  function ZeroMat4(): Mat4 {
    [0, 0, 0, 0, 0, 0, 0, 0, 0, 0, 0, 0, 0, 0, 0, 0]
  }

  /**
   * The constructor (instance.cxx:9-34): the instance count is clamped to
   * `MaxInstances`, and four buffer textures are set up. The two transform
   * arrays come from `malloc` (instance.cxx:12-13) and the two time arrays
   * are member arrays never written here (instance.h:38-39), so all four
   * are indeterminate in the source; here they start at zero.
   */
  function NewInstanceNode(name: string, numInstances: nat): (n: InstanceNode)
    ensures Valid(n)
    ensures n.name == name
    ensures numInstances <= MaxInstances ==> n.count == numInstances
    ensures numInstances > MaxInstances ==> n.count == MaxInstances
  {
    InstanceNode(
      name,
      if numInstances <= MaxInstances then numInstances else MaxInstances,
      seq(MaxInstances, _ => ZeroMat4()), seq(MaxInstances, _ => ZeroMat4()),
      Zeros(MaxInstances), Zeros(MaxInstances),
      BufferTexture(TransformTexels, Zeros(TransformTexels * RgbaChannelCount)),
      BufferTexture(TransformTexels, Zeros(TransformTexels * RgbaChannelCount)),
      BufferTexture(TimeTexels, Zeros(TimeTexels * RgbaChannelCount)),
      BufferTexture(TimeTexels, Zeros(TimeTexels * RgbaChannelCount)))
  }

  // ---------------------------------------------------------------------
  // Setters (instance.cxx:36-50). None checks `id` against the clamped
  // count; writing past the arrays is undefined, hence `id < MaxInstances`.

  function SetTransform(n: InstanceNode, id: nat, m: Mat4): (r: InstanceNode)
    requires Valid(n) && id < MaxInstances
    ensures Valid(r)
    ensures r.transforms[id] == m
    ensures forall j :: 0 <= j < MaxInstances && j != id ==> r.transforms[j] == n.transforms[j]
    ensures r == n.(transforms := r.transforms)
  {
    n.(transforms := n.transforms[id := m])
  }

  function SetPrevTransform(n: InstanceNode, id: nat, m: Mat4): (r: InstanceNode)
    requires Valid(n) && id < MaxInstances
    ensures Valid(r)
    ensures r.prevTransforms[id] == m
    ensures forall j :: 0 <= j < MaxInstances && j != id ==> r.prevTransforms[j] == n.prevTransforms[j]
    ensures r == n.(prevTransforms := r.prevTransforms)
  {
    n.(prevTransforms := n.prevTransforms[id := m])
  }

  function SetTime(n: InstanceNode, id: nat, time: Scalar): (r: InstanceNode)
    requires Valid(n) && id < MaxInstances
    ensures Valid(r)
    ensures r.times[id] == time
    ensures forall j :: 0 <= j < MaxInstances && j != id ==> r.times[j] == n.times[j]
    ensures r == n.(times := r.times)
  {
    n.(times := n.times[id := time])
  }

  function SetPrevTime(n: InstanceNode, id: nat, time: Scalar): (r: InstanceNode)
    requires Valid(n) && id < MaxInstances
    ensures Valid(r)
    ensures r.prevTimes[id] == time
    ensures forall j :: 0 <= j < MaxInstances && j != id ==> r.prevTimes[j] == n.prevTimes[j]
    ensures r == n.(prevTimes := r.prevTimes)
  {
    n.(prevTimes := n.prevTimes[id := time])
  }

  /** Setting two different instances gives the same node in either order. */
  lemma SetTransformCommutes(n: InstanceNode, a: nat, b: nat, ma: Mat4, mb: Mat4)
    requires Valid(n) && a < MaxInstances && b < MaxInstances && a != b
    ensures SetTransform(SetTransform(n, a, ma), b, mb) == SetTransform(SetTransform(n, b, mb), a, ma)
  {
    var l := SetTransform(SetTransform(n, a, ma), b, mb);
    var r := SetTransform(SetTransform(n, b, mb), a, ma);
    assert l.transforms == r.transforms;
  }

  /** A second write to the same instance replaces the first. */
  lemma SetTransformLastWins(n: InstanceNode, id: nat, m1: Mat4, m2: Mat4)
    requires Valid(n) && id < MaxInstances
    ensures SetTransform(SetTransform(n, id, m1), id, m2) == SetTransform(n, id, m2)
  {
    assert SetTransform(SetTransform(n, id, m1), id, m2).transforms == SetTransform(n, id, m2).transforms;
  }

  // ---------------------------------------------------------------------
  // The byte view of `LMatrix4Array` (instance.h:16-19)

  /** The matrices one after another, as the `data` view of the union sees them. */
  function FlattenMats(ms: seq<Mat4>): (w: seq<Scalar>)
    ensures |w| == Mat4Entries * |ms|
  {
    if ms == [] then [] else FlattenMats(ms[..|ms| - 1]) + ms[|ms| - 1]
  }

  /** Reading the `matrices` view back from the `data` view. */
  function UnflattenMats(w: seq<Scalar>): (ms: seq<Mat4>)
    requires |w| % Mat4Entries == 0
    ensures |ms| * Mat4Entries == |w|
    ensures FlattenMats(ms) == w
  {
    if w == [] then []
    else
      var init := UnflattenMats(w[..|w| - Mat4Entries]);
      var last: Mat4 := w[|w| - Mat4Entries..];
      assert FlattenMats(init + [last]) == FlattenMats(init) + last by {
        assert (init + [last])[..|init|] == init;
      }
      init + [last]
  }

  /** Matrix `i` occupies entries `16 i .. 16 i + 16` of the byte view. */
  lemma {:induction false} FlattenMatsSlot(ms: seq<Mat4>, i: nat)
    requires i < |ms|
    ensures FlattenMats(ms)[Mat4Entries * i..Mat4Entries * i + Mat4Entries] == ms[i]
  {
    var n := |ms| - 1;
    var init := ms[..n];
    assert |FlattenMats(init)| == Mat4Entries * n;
    if i < n {
      assert init[i] == ms[i];
      FlattenMatsSlot(init, i);
      assert FlattenMats(ms)[..Mat4Entries * n] == FlattenMats(init);
    }
  }

  /** The two views of the union agree: unflattening a flattening gives the matrices back. */
  lemma {:induction false} MatsRoundTrip(ms: seq<Mat4>)
    ensures UnflattenMats(FlattenMats(ms)) == ms
  {
    if ms != [] {
      var n := |ms| - 1;
      var w := FlattenMats(ms);
      assert w[..|w| - Mat4Entries] == FlattenMats(ms[..n]);
      MatsRoundTrip(ms[..n]);
      assert ms == ms[..n] + [ms[n]];
    }
  }

  /**
   * `MAT4_SIZE * MAX_INSTANCES` bytes fill exactly the `RGBA_MAT4_SIZE *
   * MAX_INSTANCES` RGBA32 texels of a transform texture, four per matrix.
   */
  lemma TransformBufferFits()
    ensures Mat4Size == 64 && RgbaMat4Size == 4
    ensures Mat4Size * MaxInstances == TransformTexels * Rgba32TexelSize
    ensures Mat4Entries * MaxInstances == TransformTexels * RgbaChannelCount
  {
  }

  // ---------------------------------------------------------------------
  // update_shader_inputs (instance.cxx:76-92)

  /** A shader input set on a node path: its name and the texture bound. */
  datatype ShaderInput = ShaderInput(name: string, texture: BufferTexture)

  /** `memcpy` of `data` to the front of the texture's image. */
  function CopyInto(t: BufferTexture, data: seq<Scalar>): (r: BufferTexture)
    requires |data| <= |t.image|
    ensures r.texels == t.texels && |r.image| == |t.image|
    ensures r.image[..|data|] == data
    ensures r.image[|data|..] == t.image[|data|..]
  {
    t.(image := data + t.image[|data|..])
  }

  /**
   * Copies every array into its texture. A transform texture is filled
   * exactly; a time texture holds sixteen times as many entries as its
   * array (it is sized `MAX_INSTANCES * FLOAT_SIZE` texels of four floats
   * each), so only its first `MaxInstances` entries change.
   */
  function CopyArrays(n: InstanceNode): (m: InstanceNode)
    requires Valid(n)
    ensures Valid(m)
    ensures m == n.(transformTex := m.transformTex, prevTransformTex := m.prevTransformTex,
                    timeTex := m.timeTex, prevTimeTex := m.prevTimeTex)
    ensures UnflattenMats(m.transformTex.image) == n.transforms
    ensures UnflattenMats(m.prevTransformTex.image) == n.prevTransforms
    ensures m.timeTex.image[..MaxInstances] == n.times
    ensures m.prevTimeTex.image[..MaxInstances] == n.prevTimes
    ensures m.timeTex.image[MaxInstances..] == n.timeTex.image[MaxInstances..]
    ensures m.prevTimeTex.image[MaxInstances..] == n.prevTimeTex.image[MaxInstances..]
  {
    MatsRoundTrip(n.transforms);
    MatsRoundTrip(n.prevTransforms);
    var tt := CopyInto(n.transformTex, FlattenMats(n.transforms));
    var pt := CopyInto(n.prevTransformTex, FlattenMats(n.prevTransforms));
    assert tt.image == FlattenMats(n.transforms) && pt.image == FlattenMats(n.prevTransforms);
    n.(transformTex := tt, prevTransformTex := pt,
       timeTex := CopyInto(n.timeTex, n.times), prevTimeTex := CopyInto(n.prevTimeTex, n.prevTimes))
  }

  /**
   * `update_shader_inputs(np)`: copies the arrays and binds the four
   * textures, by these names, as shader inputs of the node path.
   */
  function UpdateShaderInputs(n: InstanceNode): (r: (InstanceNode, seq<ShaderInput>))
    requires Valid(n)
    ensures r.0 == CopyArrays(n)
    ensures |r.1| == 4
    ensures r.1[0] == ShaderInput("instance_transform_tex", r.0.transformTex)
    ensures r.1[1] == ShaderInput("instance_prev_transform_tex", r.0.prevTransformTex)
    ensures r.1[2] == ShaderInput("instance_time_tex", r.0.timeTex)
    ensures r.1[3] == ShaderInput("instance_prev_time_tex", r.0.prevTimeTex)
  {
    var m := CopyArrays(n);
    (m, [ShaderInput("instance_transform_tex", m.transformTex), ShaderInput("instance_prev_transform_tex", m.prevTransformTex),
         ShaderInput("instance_time_tex", m.timeTex), ShaderInput("instance_prev_time_tex", m.prevTimeTex)])
  }

  /** The four RGBA32 texels `4 i .. 4 i + 3` of an image, as sixteen entries. */
  function MatrixTexels(image: seq<Scalar>, i: nat): (m: seq<Scalar>)
    requires (i + 1) * Mat4Entries <= |image|
    ensures |m| == Mat4Entries
  {
    image[RgbaMat4Size * i * RgbaChannelCount..(RgbaMat4Size * i + RgbaMat4Size) * RgbaChannelCount]
  }

  /**
   * After an update the shader finds the transforms of instance `i` in
   * texels `4 i .. 4 i + 3` of the two transform textures, and its times at
   * entry `i` of the two time textures.
   */
  lemma UpdatedInstanceReadBack(n: InstanceNode, i: nat)
    requires Valid(n) && i < MaxInstances
    ensures var m := UpdateShaderInputs(n).0;
            && MatrixTexels(m.transformTex.image, i) == n.transforms[i]
            && MatrixTexels(m.prevTransformTex.image, i) == n.prevTransforms[i]
            && m.timeTex.image[i] == n.times[i]
            && m.prevTimeTex.image[i] == n.prevTimes[i]
  {
    var m := UpdateShaderInputs(n).0;
    MatsRoundTrip(n.transforms);
    MatsRoundTrip(n.prevTransforms);
    assert m.transformTex.image == FlattenMats(n.transforms);
    assert m.prevTransformTex.image == FlattenMats(n.prevTransforms);
    FlattenMatsSlot(n.transforms, i);
    FlattenMatsSlot(n.prevTransforms, i);
    assert m.timeTex.image[i] == m.timeTex.image[..MaxInstances][i];
    assert m.prevTimeTex.image[i] == m.prevTimeTex.image[..MaxInstances][i];
  }

  /** Updating twice without a setter in between changes nothing more. */
  lemma UpdateIdempotent(n: InstanceNode)
    requires Valid(n)
    ensures UpdateShaderInputs(UpdateShaderInputs(n).0) == UpdateShaderInputs(n)
  {
    var m := UpdateShaderInputs(n).0;
    var m2 := UpdateShaderInputs(m).0;
    MatsRoundTrip(n.transforms);
    MatsRoundTrip(n.prevTransforms);
    assert m2.transformTex.image == FlattenMats(n.transforms) == m.transformTex.image;
    assert m2.prevTransformTex.image == FlattenMats(n.prevTransforms) == m.prevTransformTex.image;
    assert m2.timeTex.image == m2.timeTex.image[..MaxInstances] + m2.timeTex.image[MaxInstances..];
    assert m.timeTex.image == m.timeTex.image[..MaxInstances] + m.timeTex.image[MaxInstances..];
    assert m2.prevTimeTex.image == m2.prevTimeTex.image[..MaxInstances] + m2.prevTimeTex.image[MaxInstances..];
    assert m.prevTimeTex.image == m.prevTimeTex.image[..MaxInstances] + m.prevTimeTex.image[MaxInstances..];
  }

  // ---------------------------------------------------------------------
  // setup(np) (instance.cxx:61-65)

  /** What `setup(np)` does to one node path: instance count, infinite bounds, final. */
  datatype InstancedPath = InstancedPath(instanceCount: nat, omniBounds: bool, isFinal: bool)

  function SetupPath(n: InstanceNode): (r: InstancedPath)
    requires Valid(n)
    ensures r.instanceCount == n.count && r.instanceCount <= MaxInstances
    ensures r.omniBounds && r.isFinal
  {
    InstancedPath(n.count, true, true)
  }
}
