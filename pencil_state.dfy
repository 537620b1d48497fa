/** The 32-byte Apple Pencil sample record shared by the native producer and the
    managed consumer, the packing of its `buttons` word, and its byte layout as
    each side declares it. */
module PencilState {

  /** A 32-bit float, kept as its IEEE-754 bit pattern and never interpreted. */
  type Float32 = bv32

  /** The bit pattern of 0.0f. */
  const Zero: Float32 := 0

  /** One slot of the shared buffer, field by field in the native declaration order. */
  datatype ApplePencilState = ApplePencilState(
    positionX: Float32,
    positionY: Float32,
    pressure: Float32,
    tiltX: Float32,
    tiltY: Float32,
    buttons: bv16,
    estimationUpdateIndex: bv32,
    padding1: Float32,
    padding2: bv16)

  // Bits of `buttons`.
  const TipBit: bv16 := 1
  const ExpectingUpdatesMask: bv16 := 0x1E
  const EstimationUpdateBit: bv16 := 1 << (1 + 4)
  const PredictedBit: bv16 := 1 << (2 + 4)
  const BarrelTapBit: bv16 := 1 << (3 + 4)

  predicate IsTip(b: bv16) { b & TipBit != 0 }

  /** The four "expecting an update for force/azimuth/altitude/location" flags, as a 4-bit value. */
  function ExpectingUpdates(b: bv16): bv16 { (b & ExpectingUpdatesMask) >> 1 }

  predicate IsEstimationUpdate(b: bv16) { b & EstimationUpdateBit != 0 }

  predicate IsPredicted(b: bv16) { b & PredictedBit != 0 }

  predicate IsBarrelTap(b: bv16) { b & BarrelTapBit != 0 }

  /** The `buttons` word of a pencil sample: the tip flag in bit 0, the low four bits
      of the expecting-updates set in bits 1-4, the estimation-update flag in bit 5
      and the predicted flag in bit 6. Every flag reads back, and bit 7 (the barrel
      tap) and everything above stay clear. */
  function PackButtons(tip: bool, estimatedPropertiesExpectingUpdates: bv32,
                       isEstimationUpdate: bool, isPredicted: bool): (b: bv16)
    ensures IsTip(b) == tip
    ensures ExpectingUpdates(b) as bv32 == estimatedPropertiesExpectingUpdates & 0xf
    ensures IsEstimationUpdate(b) == isEstimationUpdate
    ensures IsPredicted(b) == isPredicted
    ensures !IsBarrelTap(b)
    ensures b < 128
  {
    var b: bv16 := if tip then 1 else 0;
    var b := b | (((estimatedPropertiesExpectingUpdates & 0xf) as bv16) << 1);
    var b := b | ((if isEstimationUpdate then 1 else 0) << (1 + 4));
    b | ((if isPredicted then 1 else 0) << (2 + 4))
  }

  /** Distinct flag combinations pack to distinct words, so the consumer can tell
      every combination apart. */
  lemma PackButtonsInjective(tip: bool, e: bv32, est: bool, pred: bool,
                             tip': bool, e': bv32, est': bool, pred': bool)
    requires PackButtons(tip, e, est, pred) == PackButtons(tip', e', est', pred')
    ensures tip == tip' && e & 0xf == e' & 0xf && est == est' && pred == pred'
  {
  }

  /** The `buttons` word of a barrel tap: only bit 7. */
  const BarrelTapButtons: bv16 := 1 << (3 + 4)

  /** A barrel-tap word is never confused with a pencil-sample word. */
  lemma BarrelTapDistinct(tip: bool, e: bv32, est: bool, pred: bool)
    ensures IsBarrelTap(BarrelTapButtons)
    ensures !IsTip(BarrelTapButtons) && !IsEstimationUpdate(BarrelTapButtons) && !IsPredicted(BarrelTapButtons)
    ensures ExpectingUpdates(BarrelTapButtons) == 0
    ensures BarrelTapButtons != PackButtons(tip, e, est, pred)
  {
  }

  /** Field names of the two declarations of the record. */
  datatype FieldName =
    | PositionX | PositionY | Position | Pressure | TiltX | TiltY | Tilt
    | Buttons | EstimationUpdateIndex | Padding1 | Padding2

  /** A field of a byte layout: where it starts and how many bytes it occupies. */
  datatype Field = Field(name: FieldName, offset: nat, size: nat)

  /** The fields follow one another without gap or overlap from byte `start` to byte `end`. */
  ghost predicate Tiles(layout: seq<Field>, start: nat, end: nat)
    decreases |layout|
  {
    if layout == [] then start == end
    else layout[0].offset == start && Tiles(layout[1..], start + layout[0].size, end)
  }

  function TotalSize(fields: seq<(FieldName, nat)>): nat
  {
    if fields == [] then 0 else fields[0].1 + TotalSize(fields[1..])
  }

  /** Lays fields out back to back from byte `at`, as a packed (pragma pack 1) struct does. */
  function Packed(fields: seq<(FieldName, nat)>, at: nat): (layout: seq<Field>)
    ensures |layout| == |fields|
    ensures forall i :: 0 <= i < |fields| ==> layout[i].name == fields[i].0 && layout[i].size == fields[i].1
    ensures Tiles(layout, at, at + TotalSize(fields))
  {
    if fields == [] then []
    else [Field(fields[0].0, at, fields[0].1)] + Packed(fields[1..], at + fields[0].1)
  }

  /** In a tiling layout every field lies inside the span and no two fields share a byte. */
  lemma {:induction false} TilesDisjoint(layout: seq<Field>, start: nat, end: nat, i: nat, j: nat)
    requires Tiles(layout, start, end)
    requires i < j < |layout|
    ensures start <= layout[i].offset && layout[j].offset + layout[j].size <= end
    ensures layout[i].offset + layout[i].size <= layout[j].offset
  {
    if i == 0 {
      TilesBounds(layout[1..], start + layout[0].size, end, j - 1);
    } else {
      TilesDisjoint(layout[1..], start + layout[0].size, end, i - 1, j - 1);
    }
  }

  lemma {:induction false} TilesBounds(layout: seq<Field>, start: nat, end: nat, k: nat)
    requires Tiles(layout, start, end)
    requires k < |layout|
    ensures start <= layout[k].offset && layout[k].offset + layout[k].size <= end
  {
    if k == 0 {
      if |layout| > 1 {
        TilesBounds(layout[1..], start + layout[0].size, end, 0);
      }
    } else {
      TilesBounds(layout[1..], start + layout[0].size, end, k - 1);
    }
  }

  /** The native declaration: nine fields, packed. */
  const NativeFields: seq<(FieldName, nat)> := [
    (PositionX, 4), (PositionY, 4), (Pressure, 4), (TiltX, 4), (TiltY, 4),
    (Buttons, 2), (EstimationUpdateIndex, 4), (Padding1, 4), (Padding2, 2)]

  /** The managed declaration: explicit field offsets in a 32-byte struct. */
  const ManagedSize: nat := 32
  const ManagedLayout: seq<Field> := [
    Field(Position, 0, 8), Field(Pressure, 8, 4), Field(Tilt, 12, 8),
    Field(Buttons, 20, 2), Field(Padding1, 22, 8), Field(Padding2, 30, 2)]

  /** The native fields land at bytes 0, 4, 8, 12, 16, 20, 22, 26 and 30. */
  const NativeLayout: seq<Field> := [
    Field(PositionX, 0, 4), Field(PositionY, 4, 4), Field(Pressure, 8, 4),
    Field(TiltX, 12, 4), Field(TiltY, 16, 4), Field(Buttons, 20, 2),
    Field(EstimationUpdateIndex, 22, 4), Field(Padding1, 26, 4), Field(Padding2, 30, 2)]

  /** Which native fields each managed field spans: managed field k covers native
      fields `lo` up to but excluding `hi`. */
  const Spans: seq<(nat, nat)> := [(0, 2), (2, 3), (3, 5), (5, 6), (6, 8), (8, 9)]

  /** The native fields a managed field stands for: a managed vector is the native
      X and Y floats, and the managed `padding1` holds the native
      `estimationUpdateIndex` and `padding1`. */
  function NativeParts(name: FieldName): seq<FieldName>
  {
    match name
    case Position => [PositionX, PositionY]
    case Tilt => [TiltX, TiltY]
    case Padding1 => [EstimationUpdateIndex, Padding1]
    case _ => [name]
  }

  function Names(layout: seq<Field>): seq<FieldName>
  {
    seq(|layout|, i requires 0 <= i < |layout| => layout[i].name)
  }

  /** Managed field `m` starts where native field `span.0` starts, ends where native
      field `span.1 - 1` ends, and the native fields in between are the ones it
      stands for. */
  ghost predicate CoversWholeFields(m: Field, native: seq<Field>, span: (nat, nat))
  {
    span.0 < span.1 <= |native| &&
    native[span.0].offset == m.offset &&
    native[span.1 - 1].offset + native[span.1 - 1].size == m.offset + m.size &&
    Names(native[span.0..span.1]) == NativeParts(m.name)
  }

  /** No two fields share a byte. */
  ghost predicate Disjoint(layout: seq<Field>)
  {
    forall i, j :: 0 <= i < j < |layout| ==> layout[i].offset + layout[i].size <= layout[j].offset
  }

  lemma {:induction false} NativePacking()
    ensures Packed(NativeFields, 0) == NativeLayout
    ensures TotalSize(NativeFields) == 32
  {
    var f := NativeFields;
    assert f[9..] == [];
    assert f[8..][1..] == f[9..];
    assert Packed(f[8..], 30) == [Field(Padding2, 30, 2)] + Packed(f[9..], 32);
    assert f[7..][1..] == f[8..];
    assert Packed(f[7..], 26) == [Field(Padding1, 26, 4)] + Packed(f[8..], 30);
    assert f[6..][1..] == f[7..];
    assert Packed(f[6..], 22) == [Field(EstimationUpdateIndex, 22, 4)] + Packed(f[7..], 26);
    assert f[5..][1..] == f[6..];
    assert Packed(f[5..], 20) == [Field(Buttons, 20, 2)] + Packed(f[6..], 22);
    assert f[4..][1..] == f[5..];
    assert Packed(f[4..], 16) == [Field(TiltY, 16, 4)] + Packed(f[5..], 20);
    assert f[3..][1..] == f[4..];
    assert Packed(f[3..], 12) == [Field(TiltX, 12, 4)] + Packed(f[4..], 16);
    assert f[2..][1..] == f[3..];
    assert Packed(f[2..], 8) == [Field(Pressure, 8, 4)] + Packed(f[3..], 12);
    assert f[1..][1..] == f[2..];
    assert Packed(f[1..], 4) == [Field(PositionY, 4, 4)] + Packed(f[2..], 8);
    assert f[0..][1..] == f[1..];
    assert Packed(f[0..], 0) == [Field(PositionX, 0, 4)] + Packed(f[1..], 4);
    assert f[0..] == f;
  }

  /** Both declarations describe the same 32 bytes: the packed native fields end at
      byte 32, the managed fields tile bytes 0-32, `buttons` is the two bytes at
      offset 20 on both sides, neither side's fields overlap, and each managed field
      covers exactly the native fields it stands for (the managed `padding1` carries
      the native `estimationUpdateIndex` and `padding1`). */
  lemma LayoutsAgree()
    ensures TotalSize(NativeFields) == ManagedSize
    ensures Tiles(ManagedLayout, 0, ManagedSize)
    ensures Packed(NativeFields, 0) == NativeLayout
    ensures Disjoint(ManagedLayout) && Disjoint(NativeLayout)
    ensures NativeLayout[5] == Field(Buttons, 20, 2) == ManagedLayout[3]
    ensures |Spans| == |ManagedLayout|
    ensures forall k :: 0 <= k < |Spans| ==> CoversWholeFields(ManagedLayout[k], NativeLayout, Spans[k])
  {
    NativePacking();
    ManagedTiling();
    SpansCover();
    forall i, j | 0 <= i < j < |ManagedLayout|
      ensures ManagedLayout[i].offset + ManagedLayout[i].size <= ManagedLayout[j].offset
    {
      TilesDisjoint(ManagedLayout, 0, ManagedSize, i, j);
    }
    forall i, j | 0 <= i < j < |NativeLayout|
      ensures NativeLayout[i].offset + NativeLayout[i].size <= NativeLayout[j].offset
    {
      TilesDisjoint(NativeLayout, 0, 32, i, j);
    }
  }

  lemma SpansCover()
    ensures |Spans| == |ManagedLayout|
    ensures forall k :: 0 <= k < |Spans| ==> CoversWholeFields(ManagedLayout[k], NativeLayout, Spans[k])
  {
    forall k | 0 <= k < |Spans|
      ensures CoversWholeFields(ManagedLayout[k], NativeLayout, Spans[k])
    {
      var n := NativeLayout;
      assert n[0..2] == [n[0], n[1]] && n[2..3] == [n[2]] && n[3..5] == [n[3], n[4]];
      assert n[5..6] == [n[5]] && n[6..8] == [n[6], n[7]] && n[8..9] == [n[8]];
      assert k == 0 || k == 1 || k == 2 || k == 3 || k == 4 || k == 5;
    }
  }

  lemma {:induction false} ManagedTiling()
    ensures Tiles(ManagedLayout, 0, ManagedSize)
  {
    var m := ManagedLayout;
    assert Tiles(m[6..], 32, 32);
    assert m[5..][1..] == m[6..];
    assert Tiles(m[5..], 30, 32);
    assert m[4..][1..] == m[5..];
    assert Tiles(m[4..], 22, 32);
    assert m[3..][1..] == m[4..];
    assert Tiles(m[3..], 20, 32);
    assert m[2..][1..] == m[3..];
    assert Tiles(m[2..], 12, 32);
    assert m[1..][1..] == m[2..];
    assert Tiles(m[1..], 8, 32);
    assert m[0..][1..] == m[1..];
    assert Tiles(m[0..], 0, 32);
    assert m[0..] == m;
  }
}
