/**
 * The lighting side of the pipeline (lighting_pipeline.cxx): the 32-entry
 * command blocks the light manager writes into the "GPU Command Data"
 * buffer, the per-frame drain/dispatch/serialise step `_update`, and the
 * shadow-atlas sizing of `_create_shadowmap`.
 */
module LightingPipeline {
  import opened Layout
  import opened LightData
  import opened LightCommands

  // ---------------------------------------------------------------------
  // Command blocks

  /**
   * The block a producer writes for a command: the tag in entry 0, then the
   * payload (the unpacked light or shadow-source definition, the slot, or
   * the first slot and count), zero-padded to the 32-entry stride.
   */
  function EncodeCommand(c: Command): (w: seq<Scalar>)
    ensures |w| == GpuCommandSize
    ensures w[0] == (if c.Unknown? then c.tag else TagOf(c))
  {
    var body := match c
      case StoreLight(d) => [CmdStoreLight] + EncodeLightDef(d)
      case RemoveLight(s) => [CmdRemoveLight, s]
      case StoreSource(d) => [CmdStoreSource] + EncodeShadowSourceDef(d)
      case RemoveSources(s0, n) => [CmdRemoveSources, s0, n]
      case Unknown(tag) => [tag];
    body + Zeros(GpuCommandSize - |body|)
  }

  /**
   * Reads one block as `_update` dispatches it (lighting_pipeline.cxx:199-219).
   *
   * The payload starts at entry 1.  The C++ reads the tag with
   * `sizeof(&command)` bytes into an `int32_t` from a float buffer
   * (lighting_pipeline.cxx:200-201; see `TagSeenAsWritten`) and then
   * advances the offset by one byte, not one entry
   * (lighting_pipeline.cxx:202); the model reads the tag's value and the
   * payload from the next entry.
   */
  function DecodeCommand(block: seq<Scalar>): (c: Command)
    requires |block| == GpuCommandSize
    ensures c.Unknown? <==> !IsCommandTag(block[0])
    ensures c.Unknown? ==> c.tag == block[0]
    ensures TagOf(c) == block[0]
    ensures c.RemoveLight? ==> c.slot == block[1]
    ensures c.RemoveSources? ==> c.slot0 == block[1] && c.count == block[2]
    ensures c.StoreLight? ==> EncodeLightDef(c.light) == block[1 .. 1 + LightDefWords]
    ensures c.StoreSource? ==> EncodeShadowSourceDef(c.source) == block[1 .. 1 + ShadowSourceDefWords]
  {
    var tag := block[0];
    if tag == CmdStoreLight then StoreLight(DecodeLightDef(block[1 .. 1 + LightDefWords]))
    else if tag == CmdRemoveLight then RemoveLight(block[1])
    else if tag == CmdStoreSource then StoreSource(DecodeShadowSourceDef(block[1 .. 1 + ShadowSourceDefWords]))
    else if tag == CmdRemoveSources then RemoveSources(block[1], block[2])
    else Unknown(tag)
  }

  /** A command survives the trip through its block unchanged. */
  lemma CommandRoundTrip(c: Command)
    requires c.Unknown? ==> !IsCommandTag(c.tag)
    ensures DecodeCommand(EncodeCommand(c)) == c
  {
    var w := EncodeCommand(c);
    match c
    case StoreLight(d) =>
      assert w[1 .. 1 + LightDefWords] == EncodeLightDef(d);
      LightDefRoundTrip(d);
    case StoreSource(d) =>
      assert w[1 .. 1 + ShadowSourceDefWords] == EncodeShadowSourceDef(d);
      ShadowSourceDefRoundTrip(d);
    case RemoveLight(_) =>
    case RemoveSources(_, _) =>
    case Unknown(_) =>
  }

  /** The largest command, tag included, fits in one 32-entry block. */
  lemma CommandsFitStride()
    ensures 1 + LightDefWords <= GpuCommandSize
    ensures 1 + ShadowSourceDefWords <= GpuCommandSize
  {
  }

  /** Entries in the command buffer texture (lighting_pipeline.cxx:119-120). */
  const CommandDataEntries: nat := GpuCommandSize * GpuCommandListLimit

  /** Block `i` of the command buffer: entries `32*i` to `32*i + 31`. */
  function Block(data: seq<Scalar>, i: nat): (b: seq<Scalar>)
    requires |data| == CommandDataEntries && i < GpuCommandListLimit
    ensures |b| == GpuCommandSize
    ensures forall j :: 0 <= j < GpuCommandSize ==> b[j] == data[i * GpuCommandSize + j]
  {
    data[GpuCommandSize * i .. GpuCommandSize * i + GpuCommandSize]
  }

  /** The first `n` blocks, decoded in index order. */
  function DecodeBatch(data: seq<Scalar>, n: nat): (cs: seq<Command>)
    requires |data| == CommandDataEntries && n <= GpuCommandListLimit
    ensures |cs| == n
    ensures forall i :: 0 <= i < n ==> cs[i] == DecodeCommand(Block(data, i))
  {
    if n == 0 then [] else DecodeBatch(data, n - 1) + [DecodeCommand(Block(data, n - 1))]
  }

  // ---------------------------------------------------------------------
  // The per-frame update

  /** The light table and the contents of the "Light Data" buffer texture. */
  datatype Lighting = Lighting(table: Table, lightData: seq<Scalar>)

  /**
   * `_update` (lighting_pipeline.cxx:181-224).  The light and shadow
   * managers are external: `commandData` is what `write_commands_to` left
   * in the command buffer and `n` the count it returned, at most
   * `GpuCommandListLimit`.  With no command nothing is rewritten; otherwise
   * the commands are applied in index order and then the whole table, every
   * slot, is copied to the light buffer.
   */
  method Update(l: Lighting, commandData: seq<Scalar>, n: nat) returns (r: Lighting)
    requires Valid(l.table)
    requires |commandData| == CommandDataEntries && n <= GpuCommandListLimit
    requires AllWellFormed(DecodeBatch(commandData, n))
    ensures Valid(r.table)
    ensures n == 0 ==> r == l
    ensures n > 0 ==> r.table == ApplyAll(l.table, DecodeBatch(commandData, n))
    ensures n > 0 ==> r.lightData == Serialize(r.table)
  {
    if n == 0 {
      return l;
    }
    ghost var batch := DecodeBatch(commandData, n);
    var t := l.table;
    var i := 0;
    while i < n
      invariant 0 <= i <= n
      invariant Valid(t)
      invariant AllWellFormed(batch[..i])
      invariant t == ApplyAll(l.table, batch[..i])
    {
      var c := DecodeCommand(Block(commandData, i));
      UpdateStep(l.table, commandData, n, i);
      t := Apply(t, c);
      i := i + 1;
    }
    assert batch[..n] == batch;
    r := Lighting(t, Serialize(t));
  }

  /** One iteration of the dispatch loop extends the applied prefix by block `i`. */
  lemma UpdateStep(t: Table, data: seq<Scalar>, n: nat, i: nat)
    requires Valid(t) && |data| == CommandDataEntries && n <= GpuCommandListLimit
    requires AllWellFormed(DecodeBatch(data, n)) && i < n
    ensures WellFormed(DecodeCommand(Block(data, i)))
    ensures AllWellFormed(DecodeBatch(data, n)[..i]) && AllWellFormed(DecodeBatch(data, n)[..i + 1])
    ensures ApplyAll(t, DecodeBatch(data, n)[..i + 1])
            == Apply(ApplyAll(t, DecodeBatch(data, n)[..i]), DecodeCommand(Block(data, i)))
  {
    var batch := DecodeBatch(data, n);
    assert batch[i] == DecodeCommand(Block(data, i));
    ApplyAllStep(t, batch, i);
  }

  // ---------------------------------------------------------------------
  // Shadow atlas sizing

  const InitialAtlasSize: nat := 256   // lighting_pipeline.cxx:27
  const ShadowTileSize: nat := 512     // lighting_pipeline.cxx:29

  /** `_atlas_size` is a `short` (lighting_pipeline.h:80). */
  const ShortMax: int := 32767

  function Pow2(k: nat): (r: nat)
    ensures r >= 1
  {
    if k == 0 then 1 else 2 * Pow2(k - 1)
  }

  /**
   * `ceil(sqrt(n))` (lighting_pipeline.cxx:35), stated exactly: the smallest
   * `r` with `r * r >= n`.
   */
  method CeilSqrt(n: nat) returns (r: nat)
    ensures r * r >= n
    ensures r == 0 || (r - 1) * (r - 1) < n
  {
    r := 0;
    while r * r < n
      invariant r <= n
      invariant r == 0 || (r - 1) * (r - 1) < n
      decreases n - r
    {
      assert r <= r * r || r == 0;
      r := r + 1;
    }
  }

  /**
   * The doubling loop of lighting_pipeline.cxx:36-37: from `start`, double
   * until the size reaches `required`.  The result is the smallest
   * `start * 2^k` that is at least `required`.
   */
  method GrowAtlas(start: nat, required: nat) returns (size: nat, doublings: nat)
    requires start > 0
    ensures size == start * Pow2(doublings)
    ensures size >= required
    ensures doublings == 0 || start * Pow2(doublings - 1) < required
  {
    size := start;
    doublings := 0;
    while required > size
      invariant size == start * Pow2(doublings)
      invariant doublings == 0 || start * Pow2(doublings - 1) < required
      decreases required - size
    {
      size := size * 2;
      doublings := doublings + 1;
    }
  }

  lemma CeilSqrtOf96(rc: nat)
    requires rc * rc >= MaxLights * 6
    requires rc == 0 || (rc - 1) * (rc - 1) < MaxLights * 6
    ensures rc == 10
  {
    if rc <= 9 {
      assert false;
    } else if rc >= 11 {
      assert false;
    }
  }

  lemma {:induction false} Pow2Monotone(a: nat, b: nat)
    requires a <= b
    ensures Pow2(a) <= Pow2(b)
    decreases b
  {
    if a < b {
      Pow2Monotone(a, b - 1);
    }
  }

  /**
   * The atlas sizing of `_create_shadowmap` (lighting_pipeline.cxx:27-37):
   * a 10x10 grid of 512-pixel tiles holds all 96 shadow sources, and the
   * atlas is the smallest doubling of 256 that fits it, 8192, which a
   * `short` can hold.
   */
  method CreateShadowmapAtlas() returns (rc: nat, atlasSize: int)
    ensures rc * rc >= MaxShadowSources && rc == 10
    ensures rc * ShadowTileSize <= atlasSize < 2 * rc * ShadowTileSize
    ensures atlasSize == 8192 && atlasSize <= ShortMax
  {
    rc := CeilSqrt(MaxLights * 6);
    CeilSqrtOf96(rc);
    var size, k := GrowAtlas(InitialAtlasSize, rc * ShadowTileSize);
    if k <= 4 {
      Pow2Monotone(k, 4);
      assert false;
    } else if k >= 6 {
      Pow2Monotone(5, k - 1);
      assert false;
    }
    assert k == 5;
    atlasSize := size;
  }

  // ---------------------------------------------------------------------
  // The tag and light-buffer sizing as written

  /**
   * The bits of an integer-valued command tag stored as an IEEE-754
   * binary32 float, which is what an `int32_t` read of the float entry sees
   * (lighting_pipeline.cxx:200-201).
   */
  function TagSeenAsWritten(tag: Scalar): (bits: Scalar)
    requires IsCommandTag(tag)
    ensures !IsCommandTag(bits)
  {
    if tag == 1 then 0x3F80_0000
    else if tag == 2 then 0x4000_0000
    else if tag == 3 then 0x4040_0000
    else 0x4080_0000
  }

  /**
   * As written, every real command falls into the switch's `default` and
   * leaves the table unchanged, while the decoded block applies it.
   */
  lemma TagAsWrittenDropsCommands(t: Table, c: Command)
    requires Valid(t) && WellFormed(c) && !c.Unknown?
    ensures var w := EncodeCommand(c);
            IsCommandTag(w[0])
            && DecodeCommand(w[0 := TagSeenAsWritten(w[0])]) == Unknown(TagSeenAsWritten(w[0]))
            && Apply(t, DecodeCommand(w[0 := TagSeenAsWritten(w[0])])) == t
            && DecodeCommand(w) == c
  {
    CommandRoundTrip(c);
  }

  /**
   * As written, the table is allocated with `sizeof(LightData*)` bytes and
   * its buffer texture with `sizeof(_light_data)` texels, both the size of a
   * pointer (lighting_pipeline.cxx:132-138).
   */
  function LightDataTexelsAsWritten(): (texels: nat)
    ensures texels * TexelSize < LightDataSize
  {
    PointerSize
  }
}
