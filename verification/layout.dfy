/**
 * Packed record layouts of the GPU-visible light table: the size macros of
 * light.h, shadow_source.h and light_data.h, the limits of
 * lighting_pipeline.h, and field-wise encodings of the light and
 * shadow-source records.
 *
 * Every field of every record is one 32-bit entry (`PN_float32` or
 * `int32_t`).  A `Scalar` stands for the value held by such an entry:
 * integer-valued fields (slots, tags, counts) hold their integer value,
 * float payloads (positions, colours, matrices, UVs) are opaque values on
 * which the model does no arithmetic.  The all-zero record is the record a
 * `memset(…, 0, …)` leaves behind.
 */
module Layout {

  type Scalar = int

  /** Bytes per field: every field is a 32-bit float or int. */
  const ScalarSize: nat := 4

  // light.h:4-5
  const LightInfoSize: nat := 4 + (4 * 3) + (4 * 3) + 4 + 4
  const LightDefSize: nat := 4 + 4 + 4 + LightInfoSize

  // shadow_source.h:4-5
  const ShadowSourceInfoSize: nat := (4 * 4 * 4) + (4 * 4)
  const ShadowSourceDefSize: nat := 4 + ShadowSourceInfoSize

  // light_data.h:12-13, 18
  const MaxLights: nat := 16
  const SourcesPerLight: nat := 6
  const MaxShadowSources: nat := MaxLights * SourcesPerLight
  const LightDataSize: nat :=
    (LightInfoSize * MaxLights) + (ShadowSourceInfoSize * MaxLights * 6)

  // lighting_pipeline.h:30-32
  const GpuCommandListLimit: nat := 1024
  const GpuCommandSize: nat := 32
  const MaxUpdates: nat := MaxLights * 6

  /** Entries per record, derived from the byte sizes. */
  const LightInfoWords: nat := LightInfoSize / ScalarSize
  const LightDefWords: nat := LightDefSize / ScalarSize
  const ShadowSourceInfoWords: nat := ShadowSourceInfoSize / ScalarSize
  const ShadowSourceDefWords: nat := ShadowSourceDefSize / ScalarSize

  /** Bytes in a pointer on a 64-bit build: what `sizeof(T*)` and `alignof(T*)` yield. */
  const PointerSize: nat := 8

  /** The three header entries (slot, type, ies) that precede the info in a light definition. */
  const LightHeaderWords: nat := 3

  datatype Vec3 = Vec3(x: Scalar, y: Scalar, z: Scalar)
  datatype Vec4 = Vec4(x: Scalar, y: Scalar, z: Scalar, w: Scalar)

  /** A 4x4 matrix as its 16 entries in memory order. */
  type Mat4 = m: seq<Scalar> | |m| == 16 witness [0, 0, 0, 0, 0, 0, 0, 0, 0, 0, 0, 0, 0, 0, 0, 0]

  /**
   * `LightInfo_s` (light.h:29-35): the part of a light that is stored in the
   * table.  `ss0` is the first shadow-source slot of the light, -1 when the
   * light casts no shadow.
   */
  datatype LightInfo = LightInfo(ss0: Scalar, pos: Vec3, color: Vec3, radius: Scalar, iradius: Scalar)

  /** `LightUnpacked_s` (light.h:8-20): slot, type and ies ahead of the info. */
  datatype LightDef = LightDef(slot: Scalar, kind: Scalar, ies: Scalar, info: LightInfo)

  /** `ShadowSourceInfo_s` (shadow_source.h:21-24). */
  datatype ShadowSourceInfo = ShadowSourceInfo(mvp: Mat4, uv: Vec4)

  /** `ShadowSourceUnpacked_s` (shadow_source.h:8-14): slot ahead of the info. */
  datatype ShadowSourceDef = ShadowSourceDef(slot: Scalar, info: ShadowSourceInfo)

  const NoShadow: Scalar := -1

  /** Whether a light record names shadow sources (light.h:14). */
  predicate CastsShadows(l: LightInfo) {
    l.ss0 != NoShadow
  }

  function Zeros(n: nat): (z: seq<Scalar>)
    ensures |z| == n
    ensures forall i :: 0 <= i < n ==> z[i] == 0
  {
    seq(n, i => 0)
  }

  function ZeroLight(): LightInfo {
    LightInfo(0, Vec3(0, 0, 0), Vec3(0, 0, 0), 0, 0)
  }

  function ZeroSource(): ShadowSourceInfo {
    ShadowSourceInfo(Zeros(16), Vec4(0, 0, 0, 0))
  }

  // ---------------------------------------------------------------------
  // Light records

  function EncodeLightInfo(l: LightInfo): (w: seq<Scalar>)
    ensures |w| * ScalarSize == LightInfoSize
  {
    [l.ss0, l.pos.x, l.pos.y, l.pos.z, l.color.x, l.color.y, l.color.z, l.radius, l.iradius]
  }

  /** Reads a light info out of its 36-byte view (the `data` member of union `LightInfo`). */
  function DecodeLightInfo(w: seq<Scalar>): (l: LightInfo)
    requires |w| == LightInfoWords
    ensures EncodeLightInfo(l) == w
  {
    LightInfo(w[0], Vec3(w[1], w[2], w[3]), Vec3(w[4], w[5], w[6]), w[7], w[8])
  }

  /** The unpacked view of a light definition (`LightUnpacked_s`), field by field. */
  function EncodeLightDef(d: LightDef): (w: seq<Scalar>)
    ensures |w| * ScalarSize == LightDefSize
  {
    [d.slot, d.kind, d.ies] + EncodeLightInfo(d.info)
  }

  /**
   * The packed view of a light definition (`LightPacked_s`): three header
   * entries, then the raw info bytes.  The info is what gets stored.
   */
  function DecodeLightDef(w: seq<Scalar>): (d: LightDef)
    requires |w| == LightDefWords
    ensures EncodeLightDef(d) == w
    ensures d.slot == w[0]
    ensures EncodeLightInfo(d.info) == w[LightHeaderWords..]
  {
    LightDef(w[0], w[1], w[2], DecodeLightInfo(w[LightHeaderWords..]))
  }

  // ---------------------------------------------------------------------
  // Shadow-source records

  function EncodeShadowSourceInfo(s: ShadowSourceInfo): (w: seq<Scalar>)
    ensures |w| * ScalarSize == ShadowSourceInfoSize
  {
    s.mvp + [s.uv.x, s.uv.y, s.uv.z, s.uv.w]
  }

  function DecodeShadowSourceInfo(w: seq<Scalar>): (s: ShadowSourceInfo)
    requires |w| == ShadowSourceInfoWords
    ensures EncodeShadowSourceInfo(s) == w
  {
    ShadowSourceInfo(w[..16], Vec4(w[16], w[17], w[18], w[19]))
  }

  function EncodeShadowSourceDef(d: ShadowSourceDef): (w: seq<Scalar>)
    ensures |w| * ScalarSize == ShadowSourceDefSize
  {
    [d.slot] + EncodeShadowSourceInfo(d.info)
  }

  function DecodeShadowSourceDef(w: seq<Scalar>): (d: ShadowSourceDef)
    requires |w| == ShadowSourceDefWords
    ensures EncodeShadowSourceDef(d) == w
    ensures d.slot == w[0]
  {
    ShadowSourceDef(w[0], DecodeShadowSourceInfo(w[1..]))
  }

  // ---------------------------------------------------------------------
  // Properties of the layouts

  /** Encoding a record and reading it back yields the same record. */
  lemma LightInfoRoundTrip(l: LightInfo)
    ensures DecodeLightInfo(EncodeLightInfo(l)) == l
  {
  }

  lemma LightDefRoundTrip(d: LightDef)
    ensures DecodeLightDef(EncodeLightDef(d)) == d
  {
    LightInfoRoundTrip(d.info);
  }

  lemma ShadowSourceInfoRoundTrip(s: ShadowSourceInfo)
    ensures DecodeShadowSourceInfo(EncodeShadowSourceInfo(s)) == s
  {
    assert EncodeShadowSourceInfo(s)[..16] == s.mvp;
  }

  lemma ShadowSourceDefRoundTrip(d: ShadowSourceDef)
    ensures DecodeShadowSourceDef(EncodeShadowSourceDef(d)) == d
  {
    ShadowSourceInfoRoundTrip(d.info);
    assert EncodeShadowSourceDef(d)[1..] == EncodeShadowSourceInfo(d.info);
  }

  /**
   * The packed and unpacked views of a light definition agree: the info
   * bytes start right after the 12-byte header, and the unpacked `ss0`,
   * `pos`, `color`, `radius`, `iradius` fields are exactly the packed info.
   */
  lemma PackedLightInfoMatchesUnpacked(w: seq<Scalar>)
    requires |w| == LightDefWords
    ensures LightHeaderWords * ScalarSize == 12
    ensures LightHeaderWords * ScalarSize + LightInfoSize == LightDefSize
    ensures DecodeLightDef(w).info == DecodeLightInfo(w[LightHeaderWords..])
    ensures DecodeLightDef(w).info.ss0 == w[3]
    ensures DecodeLightDef(w).info.iradius == w[LightDefWords - 1]
  {
  }

  /**
   * The unpacked shadow-source layout is the slot followed by the info
   * layout: the layout the size macros imply, with the packed `data`
   * right after the 4-byte slot.
   */
  lemma PackedSourceInfoMatchesUnpacked(w: seq<Scalar>)
    requires |w| == ShadowSourceDefWords
    ensures ScalarSize + ShadowSourceInfoSize == ShadowSourceDefSize
    ensures DecodeShadowSourceDef(w).info == DecodeShadowSourceInfo(w[1..])
    ensures DecodeShadowSourceDef(w).info.mvp == w[1..17]
  {
  }

  /**
   * Byte offset of `ShadowSourcePacked_s.data` as declared
   * (shadow_source.h:16-19): the array holds `unsigned char*` elements, so
   * it is pointer-aligned: it starts at the first multiple of the pointer
   * size past the 4-byte slot, behind four bytes of padding, not right
   * after the slot as the unpacked layout has the info.
   */
  function PackedSourceDataOffsetAsWritten(): (off: nat)
    ensures off % PointerSize == 0
    ensures ScalarSize <= off < ScalarSize + PointerSize
  {
    PointerSize
  }

  /**
   * As declared, the packed view's `data` of an unpacked definition starts
   * at `mvp[1]`: the bytes the store-source command copies out of it
   * (lighting_pipeline.cxx:164) are the intended info shifted by one entry,
   * with `mvp[0]` lost.
   */
  lemma PackedSourceDataAsWritten(d: ShadowSourceDef)
    ensures PackedSourceDataOffsetAsWritten() / ScalarSize == 2
    ensures EncodeShadowSourceDef(d)[PackedSourceDataOffsetAsWritten() / ScalarSize..]
            == EncodeShadowSourceInfo(d.info)[1..]
  {
    assert EncodeShadowSourceDef(d)[2..] == EncodeShadowSourceInfo(d.info)[1..];
  }

  /**
   * A definition whose matrix starts with 1: the packed `data` as declared
   * begins with 0, while the intended info begins with the 1.
   */
  lemma PackedSourceDataAsWrittenDropsMvp0()
    ensures var d := ShadowSourceDef(7, ShadowSourceInfo([1] + Zeros(15), Vec4(0, 0, 0, 0)));
            && EncodeShadowSourceDef(d)[PackedSourceDataOffsetAsWritten() / ScalarSize] == 0
            && DecodeShadowSourceInfo(EncodeShadowSourceDef(d)[1..]).mvp[0] == 1
  {
    var d := ShadowSourceDef(7, ShadowSourceInfo([1] + Zeros(15), Vec4(0, 0, 0, 0)));
    PackedSourceDataAsWritten(d);
    PackedSourceInfoMatchesUnpacked(EncodeShadowSourceDef(d));
  }

  /** The size macros and the limits, as numbers. */
  lemma LayoutConstants()
    ensures LightInfoSize == 36 && LightDefSize == 48
    ensures ShadowSourceInfoSize == 80 && ShadowSourceDefSize == 84
    ensures MaxShadowSources == 96 && MaxUpdates == MaxShadowSources
    ensures LightDataSize == 8256
    ensures LightInfoWords == 9 && LightDefWords == 12
    ensures ShadowSourceInfoWords == 20 && ShadowSourceDefWords == 21
    ensures GpuCommandListLimit == 1024 && GpuCommandSize == 32
  {
  }
}
