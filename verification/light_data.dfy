/**
 * The light table of light_data.h: `MaxLights` light slots followed by
 * `MaxShadowSources` shadow-source slots, and its serialised form, the
 * `LightDataSize`-byte block that is copied into the "Light Data" buffer
 * texture.
 */
module LightData {
  import opened Layout

  /** `LightData_s` (light_data.h:16-19). */
  datatype Table = Table(lights: seq<LightInfo>, sources: seq<ShadowSourceInfo>)

  predicate Valid(t: Table) {
    |t.lights| == MaxLights && |t.sources| == MaxShadowSources
  }

  /** A table with every slot cleared. */
  function EmptyTable(): (t: Table)
    ensures Valid(t)
    ensures forall k :: 0 <= k < MaxLights ==> t.lights[k] == ZeroLight()
    ensures forall k :: 0 <= k < MaxShadowSources ==> t.sources[k] == ZeroSource()
  {
    Table(seq(MaxLights, k => ZeroLight()), seq(MaxShadowSources, k => ZeroSource()))
  }

  /** Entries of the serialised table: all lights, then all shadow sources. */
  const LightsWords: nat := LightInfoWords * MaxLights
  const TableWords: nat := LightsWords + ShadowSourceInfoWords * MaxShadowSources

  /** Bytes per RGBA32 texel of the "Light Data" buffer texture. */
  const TexelSize: nat := 4 * ScalarSize

  /** Texels the "Light Data" buffer texture needs to hold the whole table. */
  const LightDataTexels: nat := LightDataSize / TexelSize

  /** Byte offset of light slot `k` in the serialised table. */
  function LightOffset(k: nat): nat {
    LightInfoSize * k
  }

  /** Byte offset of shadow-source slot `k`: after all light slots. */
  function SourceOffset(k: nat): nat {
    LightInfoSize * MaxLights + ShadowSourceInfoSize * k
  }

  function FlattenLights(ls: seq<LightInfo>): (w: seq<Scalar>)
    ensures |w| == LightInfoWords * |ls|
  {
    if ls == [] then [] else EncodeLightInfo(ls[0]) + FlattenLights(ls[1..])
  }

  function FlattenSources(ss: seq<ShadowSourceInfo>): (w: seq<Scalar>)
    ensures |w| == ShadowSourceInfoWords * |ss|
  {
    if ss == [] then [] else EncodeShadowSourceInfo(ss[0]) + FlattenSources(ss[1..])
  }

  function UnflattenLights(w: seq<Scalar>): (ls: seq<LightInfo>)
    requires |w| % LightInfoWords == 0
    ensures |ls| * LightInfoWords == |w|
    ensures FlattenLights(ls) == w
    decreases |w|
  {
    if w == [] then []
    else [DecodeLightInfo(w[..LightInfoWords])] + UnflattenLights(w[LightInfoWords..])
  }

  function UnflattenSources(w: seq<Scalar>): (ss: seq<ShadowSourceInfo>)
    requires |w| % ShadowSourceInfoWords == 0
    ensures |ss| * ShadowSourceInfoWords == |w|
    ensures FlattenSources(ss) == w
    decreases |w|
  {
    if w == [] then []
    else [DecodeShadowSourceInfo(w[..ShadowSourceInfoWords])] + UnflattenSources(w[ShadowSourceInfoWords..])
  }

  /** The whole table as the bytes `_update` copies to the GPU (lighting_pipeline.cxx:222-223). */
  function Serialize(t: Table): (w: seq<Scalar>)
    requires Valid(t)
    ensures |w| == TableWords
    ensures |w| * ScalarSize == LightDataSize
  {
    FlattenLights(t.lights) + FlattenSources(t.sources)
  }

  /** Reads a table back out of its serialised form. */
  function Deserialize(w: seq<Scalar>): (t: Table)
    requires |w| == TableWords
    ensures Valid(t)
    ensures Serialize(t) == w
  {
    Table(UnflattenLights(w[..LightsWords]), UnflattenSources(w[LightsWords..]))
  }

  lemma {:induction false} FlattenLightsSlot(ls: seq<LightInfo>, k: nat)
    requires k < |ls|
    ensures LightInfoWords * k + LightInfoWords <= |FlattenLights(ls)|
    ensures FlattenLights(ls)[LightInfoWords * k .. LightInfoWords * k + LightInfoWords] == EncodeLightInfo(ls[k])
  {
    var w := FlattenLights(ls);
    var head := EncodeLightInfo(ls[0]);
    assert w == head + FlattenLights(ls[1..]);
    if k > 0 {
      FlattenLightsSlot(ls[1..], k - 1);
      assert w[9 * k .. 9 * k + 9] == FlattenLights(ls[1..])[9 * (k - 1) .. 9 * (k - 1) + 9];
    } else {
      assert w[..9] == head;
    }
  }

  lemma {:induction false} FlattenSourcesSlot(ss: seq<ShadowSourceInfo>, k: nat)
    requires k < |ss|
    ensures ShadowSourceInfoWords * k + ShadowSourceInfoWords <= |FlattenSources(ss)|
    ensures FlattenSources(ss)[ShadowSourceInfoWords * k .. ShadowSourceInfoWords * k + ShadowSourceInfoWords]
         == EncodeShadowSourceInfo(ss[k])
  {
    var w := FlattenSources(ss);
    var head := EncodeShadowSourceInfo(ss[0]);
    assert w == head + FlattenSources(ss[1..]);
    if k > 0 {
      FlattenSourcesSlot(ss[1..], k - 1);
      assert w[20 * k .. 20 * k + 20] == FlattenSources(ss[1..])[20 * (k - 1) .. 20 * (k - 1) + 20];
    } else {
      assert w[..20] == head;
    }
  }

  /** First entry of light slot `k` in the serialised table. */
  function LightEntry(k: nat): nat {
    LightInfoWords * k
  }

  /** First entry of shadow-source slot `k`: after all light slots. */
  function SourceEntry(k: nat): nat {
    LightsWords + ShadowSourceInfoWords * k
  }

  /**
   * Where each slot sits in the serialised table: light `k` occupies the 36
   * bytes from `36*k`, shadow source `k` the 80 bytes from `576 + 80*k`, so
   * every light slot precedes every shadow-source slot.
   */
  lemma SerializedLightSlot(t: Table, k: nat)
    requires Valid(t) && k < MaxLights
    ensures ScalarSize * LightEntry(k) == LightOffset(k) == 36 * k
    ensures LightOffset(k) + LightInfoSize <= SourceOffset(0)
    ensures Serialize(t)[LightEntry(k) .. LightEntry(k) + LightInfoWords] == EncodeLightInfo(t.lights[k])
  {
    FlattenLightsSlot(t.lights, k);
    var w := Serialize(t);
    assert w[9 * k .. 9 * k + 9] == FlattenLights(t.lights)[9 * k .. 9 * k + 9];
  }

  lemma SerializedSourceSlot(t: Table, k: nat)
    requires Valid(t) && k < MaxShadowSources
    ensures ScalarSize * SourceEntry(k) == SourceOffset(k) == 576 + 80 * k
    ensures SourceOffset(k) + ShadowSourceInfoSize <= LightDataSize
    ensures Serialize(t)[SourceEntry(k) .. SourceEntry(k) + ShadowSourceInfoWords] == EncodeShadowSourceInfo(t.sources[k])
  {
    FlattenSourcesSlot(t.sources, k);
    var w := Serialize(t);
    var b := FlattenSources(t.sources);
    assert |FlattenLights(t.lights)| == 144;
    assert w[144..] == b;
    assert w[144 + 20 * k .. 144 + 20 * k + 20] == w[144..][20 * k .. 20 * k + 20];
  }

  lemma {:induction false} UnflattenLightsOfFlatten(ls: seq<LightInfo>)
    ensures UnflattenLights(FlattenLights(ls)) == ls
  {
    if ls != [] {
      var w := FlattenLights(ls);
      assert w[..9] == EncodeLightInfo(ls[0]);
      assert w[9..] == FlattenLights(ls[1..]);
      LightInfoRoundTrip(ls[0]);
      UnflattenLightsOfFlatten(ls[1..]);
    }
  }

  lemma {:induction false} UnflattenSourcesOfFlatten(ss: seq<ShadowSourceInfo>)
    ensures UnflattenSources(FlattenSources(ss)) == ss
  {
    if ss != [] {
      var w := FlattenSources(ss);
      assert w[..20] == EncodeShadowSourceInfo(ss[0]);
      assert w[20..] == FlattenSources(ss[1..]);
      ShadowSourceInfoRoundTrip(ss[0]);
      UnflattenSourcesOfFlatten(ss[1..]);
    }
  }

  /** Serialising a table and reading it back gives the same table. */
  lemma TableRoundTrip(t: Table)
    requires Valid(t)
    ensures Deserialize(Serialize(t)) == t
  {
    var w := Serialize(t);
    assert w[..LightsWords] == FlattenLights(t.lights);
    assert w[LightsWords..] == FlattenSources(t.sources);
    UnflattenLightsOfFlatten(t.lights);
    UnflattenSourcesOfFlatten(t.sources);
  }

  /** The table is a whole number of RGBA32 texels: 516 of them. */
  lemma LightDataTexelCount()
    ensures LightDataTexels * TexelSize == LightDataSize
    ensures LightDataTexels == 516
  {
  }

  // ---------------------------------------------------------------------
  // The shadow-source unions as written

  /**
   * Byte offset of shadow-source slot `k` in `LightData_s` as declared.
   * shadow_source.h:18, 29 and 34 give the byte views of the unions as
   * arrays of `unsigned char*`, so a `ShadowSourceInfo` union takes
   * `SHADOW_SOURCE_INFO_SIZE` pointers: eight times the 80 bytes that
   * `LIGHT_DATA_SIZE` (light_data.h:13) reserves per source.
   */
  function SourceOffsetAsWritten(k: nat): (off: nat)
    ensures off - SourceOffset(0) == PointerSize * (SourceOffset(k) - SourceOffset(0))
    ensures k > 0 ==> off > SourceOffset(k)
  {
    LightInfoSize * MaxLights + ShadowSourceInfoSize * PointerSize * k
  }

  /**
   * As declared, source 1 sits at byte 1216 instead of 656, and sources 12
   * to 95 lie wholly past the `LightDataSize` bytes that `_update` copies to
   * the "Light Data" texture (lighting_pipeline.cxx:223).
   */
  lemma SourcesAsWrittenMissTheCopy()
    ensures SourceOffsetAsWritten(1) == 1216 && SourceOffset(1) == 656
    ensures forall k :: 12 <= k < MaxShadowSources ==> SourceOffsetAsWritten(k) >= LightDataSize
    ensures forall k :: 0 <= k < MaxShadowSources ==> SourceOffset(k) + ShadowSourceInfoSize <= LightDataSize
  {
  }
}
