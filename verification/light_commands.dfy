/**
 * The four table commands of lighting_pipeline.cxx (`_cmd_store_light`,
 * `_cmd_remove_light`, `_cmd_store_source`, `_cmd_remove_sources`) as a
 * tagged variant with a pure `Apply`, and the in-order application of a
 * drained batch.
 */
module LightCommands {
  import opened Layout
  import opened LightData

  // Tags as dispatched by the switch in `_update` (lighting_pipeline.cxx:207-216).
  const CmdStoreLight: Scalar := 1
  const CmdRemoveLight: Scalar := 2
  const CmdStoreSource: Scalar := 3
  const CmdRemoveSources: Scalar := 4

  predicate IsCommandTag(tag: Scalar) {
    CmdStoreLight <= tag <= CmdRemoveSources
  }

  /**
   * A decoded command.  `Unknown` is any block whose tag is not one of the
   * four commands; its payload is never looked at.
   */
  datatype Command =
    | StoreLight(light: LightDef)
    | RemoveLight(slot: Scalar)
    | StoreSource(source: ShadowSourceDef)
    | RemoveSources(slot0: Scalar, count: Scalar)
    | Unknown(tag: Scalar)

  /**
   * The slots a command names lie inside the table.  The C++ indexes the
   * slot arrays without a check, so an out-of-range slot from the light
   * manager is undefined behaviour there; the model asks callers for this.
   * `RemoveSources` with a negative count touches no slot at all.
   */
  predicate WellFormed(c: Command) {
    match c
    case StoreLight(d) => 0 <= d.slot < MaxLights
    case RemoveLight(s) => 0 <= s < MaxLights
    case StoreSource(d) => 0 <= d.slot < MaxShadowSources
    case RemoveSources(s0, n) => n < 0 || (0 <= s0 && s0 + n < MaxShadowSources)
    case Unknown(tag) => !IsCommandTag(tag)
  }

  /** The tag that selects a command in the dispatch switch. */
  function TagOf(c: Command): (tag: Scalar)
    ensures IsCommandTag(tag) <==> !c.Unknown?
  {
    match c
    case StoreLight(_) => CmdStoreLight
    case RemoveLight(_) => CmdRemoveLight
    case StoreSource(_) => CmdStoreSource
    case RemoveSources(_, _) => CmdRemoveSources
    case Unknown(tag) => if IsCommandTag(tag) then 0 else tag
  }

  predicate AllWellFormed(cs: seq<Command>) {
    forall i :: 0 <= i < |cs| ==> WellFormed(cs[i])
  }

  /**
   * The loop of `_cmd_remove_sources` (lighting_pipeline.cxx:175-178) from
   * iteration `i` on: clears `slot0 + i` up to `slot0 + count`, inclusive.
   *
   * The C++ clears only `sizeof(ShadowSourceInfo*)` bytes of each record
   * (lighting_pipeline.cxx:176-177); the model clears the whole 80-byte
   * record, which is what the command means (see `RemoveSourcesAsWritten`).
   */
  function ClearSources(s: seq<ShadowSourceInfo>, slot0: int, count: int, i: nat): (r: seq<ShadowSourceInfo>)
    requires count < 0 || (0 <= slot0 && slot0 + count < |s|)
    ensures |r| == |s|
    ensures forall k :: 0 <= k < |s| ==>
      r[k] == (if slot0 + i <= k <= slot0 + count then ZeroSource() else s[k])
    decreases count + 1 - i
  {
    if i > count then s
    else ClearSources(s[slot0 + i := ZeroSource()], slot0, count, i + 1)
  }

  /**
   * One command applied to the table.  A store overwrites its slot whatever
   * it held (last writer wins); a remove zeroes; an unknown tag is ignored
   * (lighting_pipeline.cxx:204-206).  Each command touches only the slots
   * it names.
   *
   * Store-light keeps the info part of the definition: the packed view's
   * `data` bytes (lighting_pipeline.cxx:146-147).  The C++ first copies only
   * `sizeof(light)`, the size of a pointer, out of the command
   * (lighting_pipeline.cxx:142-144, likewise 160-162 for store-source); the
   * model copies the whole record.
   */
  function Apply(t: Table, c: Command): (r: Table)
    requires Valid(t) && WellFormed(c)
    ensures Valid(r)
    ensures c.StoreLight? ==> r.sources == t.sources && forall k :: 0 <= k < MaxLights ==>
      r.lights[k] == (if k == c.light.slot then c.light.info else t.lights[k])
    ensures c.RemoveLight? ==> r.sources == t.sources && forall k :: 0 <= k < MaxLights ==>
      r.lights[k] == (if k == c.slot then ZeroLight() else t.lights[k])
    ensures c.StoreSource? ==> r.lights == t.lights && forall k :: 0 <= k < MaxShadowSources ==>
      r.sources[k] == (if k == c.source.slot then c.source.info else t.sources[k])
    ensures c.RemoveSources? ==> r.lights == t.lights && forall k :: 0 <= k < MaxShadowSources ==>
      r.sources[k] == (if c.slot0 <= k <= c.slot0 + c.count then ZeroSource() else t.sources[k])
    ensures c.Unknown? ==> r == t
  {
    match c
    case StoreLight(d) => t.(lights := t.lights[d.slot := d.info])
    // lighting_pipeline.cxx:153-156 reads the slot with `sizeof(&slot)` and
    // clears `sizeof(LightInfo*)` bytes; see `RemoveLightAsWritten`.
    case RemoveLight(s) => t.(lights := t.lights[s := ZeroLight()])
    case StoreSource(d) => t.(sources := t.sources[d.slot := d.info])
    case RemoveSources(s0, n) => t.(sources := ClearSources(t.sources, s0, n, 0))
    case Unknown(_) => t
  }

  /** A batch applied in order, first command first. */
  function ApplyAll(t: Table, cs: seq<Command>): (r: Table)
    requires Valid(t) && AllWellFormed(cs)
    ensures Valid(r)
    decreases |cs|
  {
    if cs == [] then t else Apply(ApplyAll(t, cs[..|cs| - 1]), cs[|cs| - 1])
  }

  // ---------------------------------------------------------------------
  // Which command last wrote a slot

  predicate WritesLight(c: Command, k: int) {
    (c.StoreLight? && c.light.slot == k) || (c.RemoveLight? && c.slot == k)
  }

  /** The record a command that writes a light slot leaves there. */
  function LightWritten(c: Command): LightInfo
    requires c.StoreLight? || c.RemoveLight?
  {
    if c.StoreLight? then c.light.info else ZeroLight()
  }

  predicate WritesSource(c: Command, k: int) {
    (c.StoreSource? && c.source.slot == k) || (c.RemoveSources? && c.slot0 <= k <= c.slot0 + c.count)
  }

  function SourceWritten(c: Command): ShadowSourceInfo
    requires c.StoreSource? || c.RemoveSources?
  {
    if c.StoreSource? then c.source.info else ZeroSource()
  }

  /** Command `i` of `cs` writes light slot `k` and no later command does. */
  predicate LastLightWriter(cs: seq<Command>, k: int, i: int) {
    0 <= i < |cs| && WritesLight(cs[i], k) && forall j :: i < j < |cs| ==> !WritesLight(cs[j], k)
  }

  predicate LastSourceWriter(cs: seq<Command>, k: int, i: int) {
    0 <= i < |cs| && WritesSource(cs[i], k) && forall j :: i < j < |cs| ==> !WritesSource(cs[j], k)
  }

  /** What one command leaves in light slot `k`. */
  lemma ApplyLightSlot(t: Table, c: Command, k: int)
    requires Valid(t) && WellFormed(c) && 0 <= k < MaxLights
    ensures Apply(t, c).lights[k] == (if WritesLight(c, k) then LightWritten(c) else t.lights[k])
  {
  }

  /** What one command leaves in shadow-source slot `k`. */
  lemma ApplySourceSlot(t: Table, c: Command, k: int)
    requires Valid(t) && WellFormed(c) && 0 <= k < MaxShadowSources
    ensures Apply(t, c).sources[k] == (if WritesSource(c, k) then SourceWritten(c) else t.sources[k])
  {
  }

  lemma AllWellFormedPrefix(cs: seq<Command>, n: nat)
    requires AllWellFormed(cs) && n <= |cs|
    ensures AllWellFormed(cs[..n])
  {
    forall i | 0 <= i < n ensures WellFormed(cs[..n][i]) {
      assert cs[..n][i] == cs[i];
    }
  }

  /** Extending a prefix of a batch by one command applies that command. */
  lemma ApplyAllStep(t: Table, cs: seq<Command>, i: nat)
    requires Valid(t) && AllWellFormed(cs) && i < |cs|
    ensures AllWellFormed(cs[..i]) && AllWellFormed(cs[..i + 1])
    ensures ApplyAll(t, cs[..i + 1]) == Apply(ApplyAll(t, cs[..i]), cs[i])
  {
    AllWellFormedPrefix(cs, i);
    AllWellFormedPrefix(cs, i + 1);
    assert cs[..i + 1][..i] == cs[..i];
  }

  /**
   * Last writer wins, for light slots: after a batch, slot `k` holds what
   * the last command writing `k` left there, or its old record when no
   * command of the batch writes `k`.
   */
  lemma {:induction false} LastLightWriterWins(t: Table, cs: seq<Command>, k: int)
    requires Valid(t) && AllWellFormed(cs) && 0 <= k < MaxLights
    ensures (forall i :: 0 <= i < |cs| ==> !WritesLight(cs[i], k)) ==> ApplyAll(t, cs).lights[k] == t.lights[k]
    ensures forall i :: LastLightWriter(cs, k, i) ==> ApplyAll(t, cs).lights[k] == LightWritten(cs[i])
    decreases |cs|
  {
    if cs != [] {
      var n := |cs| - 1;
      var init := cs[..n];
      var c := cs[n];
      AllWellFormedPrefix(cs, n);
      var prev := ApplyAll(t, init);
      assert ApplyAll(t, cs) == Apply(prev, c);
      ApplyLightSlot(prev, c, k);
      if WritesLight(c, k) {
        assert forall i :: LastLightWriter(cs, k, i) ==> i == n;
      } else {
        LastLightWriterWins(t, init, k);
        forall i | LastLightWriter(cs, k, i) ensures LastLightWriter(init, k, i) {
          assert i != n;
          assert init[i] == cs[i];
          forall j | i < j < |init| ensures !WritesLight(init[j], k) {
            assert init[j] == cs[j];
          }
        }
        if forall i :: 0 <= i < |cs| ==> !WritesLight(cs[i], k) {
          forall i | 0 <= i < |init| ensures !WritesLight(init[i], k) {
            assert init[i] == cs[i];
          }
        }
      }
    }
  }

  /** Last writer wins, for shadow-source slots. */
  lemma {:induction false} LastSourceWriterWins(t: Table, cs: seq<Command>, k: int)
    requires Valid(t) && AllWellFormed(cs) && 0 <= k < MaxShadowSources
    ensures (forall i :: 0 <= i < |cs| ==> !WritesSource(cs[i], k)) ==> ApplyAll(t, cs).sources[k] == t.sources[k]
    ensures forall i :: LastSourceWriter(cs, k, i) ==> ApplyAll(t, cs).sources[k] == SourceWritten(cs[i])
    decreases |cs|
  {
    if cs != [] {
      var n := |cs| - 1;
      var init := cs[..n];
      var c := cs[n];
      AllWellFormedPrefix(cs, n);
      var prev := ApplyAll(t, init);
      assert ApplyAll(t, cs) == Apply(prev, c);
      ApplySourceSlot(prev, c, k);
      if WritesSource(c, k) {
        assert forall i :: LastSourceWriter(cs, k, i) ==> i == n;
      } else {
        LastSourceWriterWins(t, init, k);
        forall i | LastSourceWriter(cs, k, i) ensures LastSourceWriter(init, k, i) {
          assert i != n;
          assert init[i] == cs[i];
          forall j | i < j < |init| ensures !WritesSource(init[j], k) {
            assert init[j] == cs[j];
          }
        }
        if forall i :: 0 <= i < |cs| ==> !WritesSource(cs[i], k) {
          forall i | 0 <= i < |init| ensures !WritesSource(init[i], k) {
            assert init[i] == cs[i];
          }
        }
      }
    }
  }

  /** Applying two batches one after the other is applying their concatenation. */
  lemma {:induction false} ApplyAllAppend(t: Table, a: seq<Command>, b: seq<Command>)
    requires Valid(t) && AllWellFormed(a) && AllWellFormed(b)
    ensures AllWellFormed(a + b)
    ensures ApplyAll(t, a + b) == ApplyAll(ApplyAll(t, a), b)
    decreases |b|
  {
    assert AllWellFormed(a + b) by {
      forall i | 0 <= i < |a + b| ensures WellFormed((a + b)[i]) {
        if i < |a| { assert (a + b)[i] == a[i]; } else { assert (a + b)[i] == b[i - |a|]; }
      }
    }
    if b == [] {
      assert a + b == a;
    } else {
      var b' := b[..|b| - 1];
      AllWellFormedPrefix(b, |b| - 1);
      ApplyAllAppend(t, a, b');
      assert (a + b)[..|a + b| - 1] == a + b';
      assert (a + b)[|a + b| - 1] == b[|b| - 1];
    }
  }

  /**
   * `remove-sources(slot0, count)` clears the `count + 1` slots from
   * `slot0` to `slot0 + count`: the last of them is cleared, the slots just
   * outside keep their records.
   */
  lemma RemoveSourcesBoundary(t: Table, slot0: int, count: int)
    requires Valid(t) && 0 <= count && WellFormed(RemoveSources(slot0, count))
    ensures Apply(t, RemoveSources(slot0, count)).sources[slot0] == ZeroSource()
    ensures Apply(t, RemoveSources(slot0, count)).sources[slot0 + count] == ZeroSource()
    ensures slot0 + count + 1 < MaxShadowSources ==>
      Apply(t, RemoveSources(slot0, count)).sources[slot0 + count + 1] == t.sources[slot0 + count + 1]
    ensures 0 < slot0 ==> Apply(t, RemoveSources(slot0, count)).sources[slot0 - 1] == t.sources[slot0 - 1]
  {
  }

  /**
   * A removed light is the all-zero record, whose `ss0` is 0 rather than
   * the no-shadow value -1 (light.h:14): read back, the cleared slot names
   * shadow source 0 as its first source.
   */
  lemma RemovedLightNamesSourceZero(t: Table, slot: int)
    requires Valid(t) && 0 <= slot < MaxLights
    ensures Apply(t, RemoveLight(slot)).lights[slot].ss0 == 0
    ensures CastsShadows(Apply(t, RemoveLight(slot)).lights[slot])
  {
  }

  // ---------------------------------------------------------------------
  // The clears as written

  /** Zeroes the first `bytes` bytes of a record (a `memset(data, 0, bytes)`). */
  function ClearPrefix(w: seq<Scalar>, bytes: nat): (r: seq<Scalar>)
    ensures |r| == |w|
    ensures forall i :: 0 <= i < |w| ==> r[i] == (if i * ScalarSize < bytes then 0 else w[i])
  {
    seq(|w|, i requires 0 <= i < |w| => if i * ScalarSize < bytes then 0 else w[i])
  }

  /**
   * `_cmd_remove_light` as written (lighting_pipeline.cxx:155-156): the
   * memset clears `sizeof(LightInfo*)` bytes, the first two fields, instead
   * of the whole record.
   */
  function RemoveLightAsWritten(t: Table, slot: int): (r: Table)
    requires Valid(t) && 0 <= slot < MaxLights
    ensures Valid(r) && r.sources == t.sources
    ensures forall i :: 0 <= i < MaxLights && i != slot ==> r.lights[i] == t.lights[i]
    ensures r.lights[slot].ss0 == 0 && r.lights[slot].pos.x == 0
    ensures r.lights[slot].pos.y == t.lights[slot].pos.y && r.lights[slot].pos.z == t.lights[slot].pos.z
    ensures r.lights[slot].color == t.lights[slot].color
    ensures r.lights[slot].radius == t.lights[slot].radius && r.lights[slot].iradius == t.lights[slot].iradius
  {
    var w := ClearPrefix(EncodeLightInfo(t.lights[slot]), PointerSize);
    var l := DecodeLightInfo(w);
    assert EncodeLightInfo(l) == w;
    t.(lights := t.lights[slot := l])
  }

  /** A removed light keeps its radius as written, but is zeroed by `Apply`. */
  lemma RemoveLightAsWrittenKeepsRadius()
    ensures var l := LightInfo(0, Vec3(0, 0, 0), Vec3(1, 1, 1), 7, 3);
            var t := EmptyTable().(lights := EmptyTable().lights[0 := l]);
            RemoveLightAsWritten(t, 0).lights[0].radius == 7
            && Apply(t, RemoveLight(0)).lights[0] == ZeroLight()
  {
    var l := LightInfo(0, Vec3(0, 0, 0), Vec3(1, 1, 1), 7, 3);
    var t := EmptyTable().(lights := EmptyTable().lights[0 := l]);
    assert t.lights[0] == l;
  }

  /**
   * `_cmd_remove_sources` as written (lighting_pipeline.cxx:175-178): each
   * memset clears `sizeof(ShadowSourceInfo*)` bytes, the first two matrix
   * entries, instead of the whole record.
   */
  function RemoveSourcesAsWritten(t: Table, slot0: int, count: int): (r: Table)
    requires Valid(t) && WellFormed(RemoveSources(slot0, count))
    ensures Valid(r) && r.lights == t.lights
    ensures forall k :: 0 <= k < MaxShadowSources && slot0 <= k <= slot0 + count ==>
      r.sources[k].mvp[0] == 0 && r.sources[k].mvp[1] == 0
    ensures forall k :: 0 <= k < MaxShadowSources && !(slot0 <= k <= slot0 + count) ==>
      r.sources[k] == t.sources[k]
    ensures forall k :: 0 <= k < MaxShadowSources ==>
      r.sources[k].uv == t.sources[k].uv && r.sources[k].mvp[2..] == t.sources[k].mvp[2..]
  {
    var cleared := seq(MaxShadowSources, k requires 0 <= k < MaxShadowSources =>
      if slot0 <= k <= slot0 + count then ClearSourceAsWritten(t.sources[k]) else t.sources[k]);
    t.(sources := cleared)
  }

  /** One shadow-source record after the 8-byte memset: only `mvp[0]` and `mvp[1]` become zero. */
  function ClearSourceAsWritten(s: ShadowSourceInfo): (r: ShadowSourceInfo)
    ensures r.uv == s.uv && r.mvp[2..] == s.mvp[2..]
    ensures r.mvp[0] == 0 && r.mvp[1] == 0
  {
    var w := ClearPrefix(EncodeShadowSourceInfo(s), PointerSize);
    var r := DecodeShadowSourceInfo(w);
    assert EncodeShadowSourceInfo(r) == w;
    assert r.mvp == w[..16];
    assert r.mvp[2..] == s.mvp[2..] by {
      forall i | 2 <= i < 16 ensures r.mvp[i] == s.mvp[i] {
        assert w[i] == EncodeShadowSourceInfo(s)[i];
      }
    }
    r
  }

  /** A removed shadow source keeps its UV rectangle as written, but is zeroed by `Apply`. */
  lemma RemoveSourcesAsWrittenKeepsUv()
    ensures var s := ShadowSourceInfo(Zeros(16), Vec4(1, 1, 1, 1));
            var t := EmptyTable().(sources := EmptyTable().sources[5 := s]);
            RemoveSourcesAsWritten(t, 5, 0).sources[5].uv == Vec4(1, 1, 1, 1)
            && Apply(t, RemoveSources(5, 0)).sources[5] == ZeroSource()
  {
    var s := ShadowSourceInfo(Zeros(16), Vec4(1, 1, 1, 1));
    var t := EmptyTable().(sources := EmptyTable().sources[5 := s]);
    assert t.sources[5] == s;
  }
}
