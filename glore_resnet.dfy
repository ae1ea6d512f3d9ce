/**
 * Architecture planning of the GloRe ResNets (research/cv/glore_res/src/
 * glore_resnet.py): the ordered list of residual blocks and global
 * reasoning (GloRe) units each stage builds, with their channel and stride
 * parameters. Blocks are descriptors, not tensors: the convolutions and the
 * `construct` dataflow are not part of this model.
 */
module GloreResnet {
  import opened Wrappers
  import opened Strings
  import PyNumbers

  // ---------------------------------------------------------------------
  // ResNet_50: `ResidualBlock`, `GloreUnit_50` and `_make_layer`

  /** `ResidualBlock.expansion`. */
  const Expansion := 4

  /** A block of a ResNet_50 stage. */
  datatype Block50 =
    | Residual(inChannel: int, outChannel: int, stride: int, channel: int, downSample: bool)
    | Glore(numIn: int, numMid: int, numS: int, numN: int)

  /**
   * `ResidualBlock(in_channel, out_channel, stride)`: the bottleneck width
   * is `out_channel // 4`, and a down-sampling shortcut is built when the
   * stride or the channel count changes.
   */
  function ResidualBlock(inChannel: int, outChannel: int, stride: int): (b: Block50)
    ensures b.Residual? && b.inChannel == inChannel && b.outChannel == outChannel && b.stride == stride
    ensures b.channel * Expansion <= outChannel < b.channel * Expansion + Expansion
    ensures b.downSample <==> stride != 1 || inChannel != outChannel
  {
    Residual(inChannel, outChannel, stride, PyNumbers.FloorDiv(outChannel, Expansion), stride != 1 || inChannel != outChannel)
  }

  /** `GloreUnit_50(num_in, num_mid)`: `num_s = 2 * num_mid` states over `num_n = num_mid` nodes. */
  function GloreUnit50(numIn: int, numMid: int): (b: Block50)
    ensures b.Glore? && b.numIn == numIn && b.numMid == numMid
    ensures b.numS == 2 * b.numN && b.numN == numMid
  {
    Glore(numIn, numMid, 2 * numMid, numMid)
  }

  /** The GloRe unit `_make_layer` appends: `GloreUnit_50(out_channel, int(out_channel / 4))`. */
  function StageGlore(outChannel: int): Block50
  {
    GloreUnit50(outChannel, PyNumbers.Trunc(outChannel as real / 4.0))
  }

  /** Block `i` (from 1) of a stage: the first takes the stage's input channel and stride. */
  function StageBlock(i: int, inChannel: int, outChannel: int, stride: int): Block50
  {
    ResidualBlock(if i == 1 then inChannel else outChannel, outChannel, if i == 1 then stride else 1)
  }

  /** Whether a GloRe unit follows block `i`. */
  predicate GloreAt(i: int, useGlore: bool, glorePos: seq<int>)
  {
    useGlore && i in glorePos
  }

  /** The positions `_make_layer` uses: `[1, 3, 5]` when glore is on and none is given. */
  function DefaultPositions(useGlore: bool, glorePos: Option<seq<int>>): (ps: seq<int>)
    ensures glorePos.Some? ==> ps == glorePos.value
    ensures useGlore && glorePos.None? ==> ps == [1, 3, 5]
  {
    if useGlore && glorePos.None? then [1, 3, 5] else glorePos.GetOr([])
  }

  /** What iteration `i` of `_make_layer`'s loop appends. */
  function StageGroup(i: int, inChannel: int, outChannel: int, stride: int, useGlore: bool, glorePos: seq<int>): seq<Block50>
  {
    [StageBlock(i, inChannel, outChannel, stride)] + (if GloreAt(i, useGlore, glorePos) then [StageGlore(outChannel)] else [])
  }

  /** The blocks for iterations `1..k` (the whole stage for `k = layer_num`). */
  function Stage(k: int, inChannel: int, outChannel: int, stride: int, useGlore: bool, glorePos: seq<int>): seq<Block50>
    decreases k
  {
    if k <= 0 then []
    else Stage(k - 1, inChannel, outChannel, stride, useGlore, glorePos) + StageGroup(k, inChannel, outChannel, stride, useGlore, glorePos)
  }

  /** Where block `i` sits in the stage: after everything iterations `1..i-1` appended. */
  function Offset(i: int, inChannel: int, outChannel: int, stride: int, useGlore: bool, glorePos: seq<int>): nat
  {
    |Stage(i - 1, inChannel, outChannel, stride, useGlore, glorePos)|
  }

  /** `_make_layer`: one residual block per iteration, each followed by a GloRe unit at the glore positions. */
  method MakeLayer(layerNum: int, inChannel: int, outChannel: int, stride: int, useGlore: bool, glorePos: Option<seq<int>>)
    returns (layers: seq<Block50>)
    ensures layers == Stage(layerNum, inChannel, outChannel, stride, useGlore, DefaultPositions(useGlore, glorePos))
  {
    var pos := DefaultPositions(useGlore, glorePos);
    layers := [];
    var i := 1;
    while i < layerNum + 1
      invariant 1 <= i <= (if layerNum >= 0 then layerNum + 1 else 1)
      invariant layers == Stage(i - 1, inChannel, outChannel, stride, useGlore, pos)
    {
      layers := AppendGroup(layers, i, inChannel, outChannel, stride, useGlore, pos);
      i := i + 1;
    }
  }

  /** One iteration of `_make_layer`: the residual block, then a GloRe unit when `i` is a glore position. */
  method AppendGroup(layers: seq<Block50>, i: int, inChannel: int, outChannel: int, stride: int, useGlore: bool,
                     pos: seq<int>)
    returns (layers': seq<Block50>)
    ensures layers' == layers + StageGroup(i, inChannel, outChannel, stride, useGlore, pos)
  {
    var block := ResidualBlock(if i == 1 then inChannel else outChannel, outChannel, if i == 1 then stride else 1);
    layers' := layers + [block];
    if useGlore && i in pos {
      layers' := layers' + [GloreUnit50(outChannel, PyNumbers.Trunc(outChannel as real / 4.0))];
    }
  }

  /** A stage built with glore off holds residual blocks only. */
  lemma {:induction false} StageWithoutGlore(k: int, inChannel: int, outChannel: int, stride: int, glorePos: seq<int>)
    ensures forall j | 0 <= j < |Stage(k, inChannel, outChannel, stride, false, glorePos)| ::
      Stage(k, inChannel, outChannel, stride, false, glorePos)[j].Residual?
  {
    if k > 0 {
      StageWithoutGlore(k - 1, inChannel, outChannel, stride, glorePos);
    }
  }

  /** The glore positions that fall on iterations `1..k`. */
  function PositionsIn(k: int, glorePos: seq<int>): set<int>
  {
    set p | p in glorePos && 1 <= p <= k
  }

  /** A stage holds `layer_num` blocks plus one GloRe unit per glore position in `1..layer_num`. */
  lemma {:induction false} StageLength(k: int, inChannel: int, outChannel: int, stride: int, useGlore: bool, glorePos: seq<int>)
    ensures |Stage(k, inChannel, outChannel, stride, useGlore, glorePos)| ==
      (if k > 0 then k else 0) + (if useGlore then |PositionsIn(k, glorePos)| else 0)
  {
    if k <= 0 {
      assert PositionsIn(k, glorePos) == {};
    } else {
      StageLength(k - 1, inChannel, outChannel, stride, useGlore, glorePos);
      PositionsStep(k, glorePos);
    }
  }

  lemma PositionsStep(k: int, glorePos: seq<int>)
    requires k > 0
    ensures |PositionsIn(k, glorePos)| == |PositionsIn(k - 1, glorePos)| + (if k in glorePos then 1 else 0)
  {
    if k in glorePos {
      assert PositionsIn(k, glorePos) == PositionsIn(k - 1, glorePos) + {k};
    } else {
      assert PositionsIn(k, glorePos) == PositionsIn(k - 1, glorePos);
    }
  }

  /** Building more iterations only appends: the blocks of `1..i` stay in front. */
  lemma {:induction false} StagePrefix(i: int, k: int, inChannel: int, outChannel: int, stride: int, useGlore: bool, glorePos: seq<int>)
    requires i <= k
    ensures Stage(i, inChannel, outChannel, stride, useGlore, glorePos) <= Stage(k, inChannel, outChannel, stride, useGlore, glorePos)
  {
    if i < k && k > 0 {
      StagePrefix(i, k - 1, inChannel, outChannel, stride, useGlore, glorePos);
    }
  }

  /**
   * The layout of a stage: block `i` is the residual block with the stage's
   * input channel and stride when `i = 1` and `out_channel` and stride 1
   * otherwise, and a GloRe unit `GloreUnit_50(out, int(out / 4))` follows it
   * exactly when `i` is a glore position.
   */
  lemma StageLayout(k: int, i: int, inChannel: int, outChannel: int, stride: int, useGlore: bool, glorePos: seq<int>)
    requires 1 <= i <= k
    ensures var s := Stage(k, inChannel, outChannel, stride, useGlore, glorePos);
      var o := Offset(i, inChannel, outChannel, stride, useGlore, glorePos);
      o < |s| && s[o] == ResidualBlock(if i == 1 then inChannel else outChannel, outChannel, if i == 1 then stride else 1)
    ensures var s := Stage(k, inChannel, outChannel, stride, useGlore, glorePos);
      var o := Offset(i, inChannel, outChannel, stride, useGlore, glorePos);
      (o + 1 < |s| && s[o + 1].Glore?) <==> useGlore && i in glorePos
    ensures var s := Stage(k, inChannel, outChannel, stride, useGlore, glorePos);
      var o := Offset(i, inChannel, outChannel, stride, useGlore, glorePos);
      useGlore && i in glorePos ==> s[o + 1] == GloreUnit50(outChannel, PyNumbers.Trunc(outChannel as real / 4.0))
  {
    var s := Stage(k, inChannel, outChannel, stride, useGlore, glorePos);
    var si := Stage(i, inChannel, outChannel, stride, useGlore, glorePos);
    var o := Offset(i, inChannel, outChannel, stride, useGlore, glorePos);
    StagePrefix(i, k, inChannel, outChannel, stride, useGlore, glorePos);
    assert si == Stage(i - 1, inChannel, outChannel, stride, useGlore, glorePos) + StageGroup(i, inChannel, outChannel, stride, useGlore, glorePos);
    assert s[o] == si[o];
    if GloreAt(i, useGlore, glorePos) {
      assert s[o + 1] == si[o + 1];
    } else if i < k {
      StagePrefix(i + 1, k, inChannel, outChannel, stride, useGlore, glorePos);
      var si1 := Stage(i + 1, inChannel, outChannel, stride, useGlore, glorePos);
      assert si1 == si + StageGroup(i + 1, inChannel, outChannel, stride, useGlore, glorePos);
      assert s[o + 1] == si1[o + 1] == StageBlock(i + 1, inChannel, outChannel, stride);
    } else {
      assert |s| == o + 1;
    }
  }

  /**
   * For a non-negative channel count the GloRe unit's `int(out / 4)` agrees
   * with the residual blocks' bottleneck width `out // 4`.
   */
  lemma GloreMidMatchesBottleneck(outChannel: int, inChannel: int, stride: int)
    requires outChannel >= 0
    ensures StageGlore(outChannel).numMid == ResidualBlock(inChannel, outChannel, stride).channel
  {
    var n := PyNumbers.Trunc(outChannel as real / 4.0);
    var q := PyNumbers.FloorDiv(outChannel, Expansion);
    assert (n * 4) as real <= outChannel as real < (n * 4 + 4) as real;
    assert n * 4 <= outChannel < n * 4 + 4;
  }

  /** The four stages of `ResNet_50`. */
  datatype ResNet50Layers = ResNet50Layers(layer1: seq<Block50>, layer2: seq<Block50>, layer3: seq<Block50>, layer4: seq<Block50>)

  predicate AllResidual(blocks: seq<Block50>)
  {
    forall j | 0 <= j < |blocks| :: blocks[j].Residual?
  }

  /**
   * `ResNet_50.__init__`: ValueError unless the layer counts and the in and
   * out channel lists all have length 4; the stride list is only indexed,
   * so a short one raises IndexError. Only the third stage passes
   * `use_glore`, with the default positions.
   */
  method ResNet50(layerNums: seq<int>, inChannels: seq<int>, outChannels: seq<int>, strides: seq<int>, useGlore: bool)
    returns (r: Result<ResNet50Layers>)
    ensures r == Err(ValueError) <==> !(|layerNums| == |inChannels| == |outChannels| == 4)
    ensures r == Err(IndexError) <==> |layerNums| == |inChannels| == |outChannels| == 4 && |strides| < 4
    ensures r.Ok? <==> |layerNums| == |inChannels| == |outChannels| == 4 && |strides| >= 4
    ensures r.Ok? ==> r.value.layer3 == Stage(layerNums[2], inChannels[2], outChannels[2], strides[2], useGlore, DefaultPositions(useGlore, None))
    ensures r.Ok? ==> r.value.layer1 == Stage(layerNums[0], inChannels[0], outChannels[0], strides[0], false, [])
    ensures r.Ok? ==> r.value.layer2 == Stage(layerNums[1], inChannels[1], outChannels[1], strides[1], false, [])
    ensures r.Ok? ==> r.value.layer4 == Stage(layerNums[3], inChannels[3], outChannels[3], strides[3], false, [])
    ensures r.Ok? ==> AllResidual(r.value.layer1) && AllResidual(r.value.layer2) && AllResidual(r.value.layer4)
  {
    if !(|layerNums| == |inChannels| == |outChannels| == 4) {
      return Err(ValueError);
    }
    if |strides| < 4 {
      return Err(IndexError);
    }
    var layer1 := MakeLayer(layerNums[0], inChannels[0], outChannels[0], strides[0], false, None);
    var layer2 := MakeLayer(layerNums[1], inChannels[1], outChannels[1], strides[1], false, None);
    var layer3 := MakeLayer(layerNums[2], inChannels[2], outChannels[2], strides[2], useGlore, None);
    var layer4 := MakeLayer(layerNums[3], inChannels[3], outChannels[3], strides[3], false, None);
    StageWithoutGlore(layerNums[0], inChannels[0], outChannels[0], strides[0], []);
    StageWithoutGlore(layerNums[1], inChannels[1], outChannels[1], strides[1], []);
    StageWithoutGlore(layerNums[3], inChannels[3], outChannels[3], strides[3], []);
    r := Ok(ResNet50Layers(layer1, layer2, layer3, layer4));
  }

  /**
   * `glore_resnet50`: stages of 3, 4, 6 and 3 blocks; with glore the third
   * stage gains units after blocks 1, 3 and 5.
   */
  method GloreResnet50(useGlore: bool) returns (r: Result<ResNet50Layers>)
    ensures r.Ok?
    ensures |r.value.layer1| == 3 && |r.value.layer2| == 4 && |r.value.layer4| == 3
    ensures |r.value.layer3| == if useGlore then 9 else 6
  {
    r := ResNet50([3, 4, 6, 3], [64, 256, 512, 1024], [256, 512, 1024, 2048], [1, 2, 2, 2], useGlore);
    StageLength(3, 64, 256, 1, false, []);
    StageLength(4, 256, 512, 2, false, []);
    StageLength(3, 1024, 2048, 2, false, []);
    StageLength(6, 512, 1024, 2, useGlore, [1, 3, 5]);
    assert PositionsIn(6, [1, 3, 5]) == {1, 3, 5};
  }

  // ---------------------------------------------------------------------
  // ResNet_101 and ResNet_200: named `Residual_Unit_200` and `GloreUnit_200` entries

  /** A cell of a ResNet_101 or ResNet_200 stage. */
  datatype Cell200 =
      /** `Residual_Unit_200`; `firstBlock` units alone carry the projection shortcut `BN_AC_Conv_w`. */
    | Unit(inChannel: int, midChannel: int, outChannel: int, stride: int, firstBlock: bool)
    | Glore200(numIn: int, numMid: int, numS: int, numN: int, castFp16: bool)

  /** The key of a stage entry: unit `i` or the GloRe unit that follows it. */
  datatype Key = UnitKey(i: int) | GloreKey(i: int)

  /** An `OrderedDict` entry of a stage. */
  datatype Entry = Entry(key: Key, cell: Cell200)

  /** `GloreUnit_200(num_in, num_mid, cast_fp16)`. */
  function GloreUnit200(numIn: int, numMid: int, castFp16: bool): (c: Cell200)
    ensures c.Glore200? && c.numIn == numIn && c.numMid == numMid && c.castFp16 == castFp16
    ensures c.numS == 2 * c.numN && c.numN == numMid
  {
    Glore200(numIn, numMid, 2 * numMid, numMid, castFp16)
  }

  const UnitPrefix := "Residual_Unit"
  const GloreSuffix := "_GloreUnit"

  /** `'Residual_Unit{}'.format(i)` and `'Residual_Unit{}_GloreUnit'.format(i)`. */
  function KeyName(key: Key): string
  {
    match key
    case UnitKey(i) => UnitPrefix + IntToString(i)
    case GloreKey(i) => UnitPrefix + IntToString(i) + GloreSuffix
  }

  lemma IntToStringInjective(i: int, j: int)
    requires IntToString(i) == IntToString(j)
    ensures i == j
  {
    ParseIntOfIntToString(i);
    ParseIntOfIntToString(j);
  }

  /** Distinct keys format to distinct names: no two entries of a stage can collide in the `OrderedDict`. */
  lemma KeyNameInjective(a: Key, b: Key)
    ensures KeyName(a) == KeyName(b) <==> a == b
  {
    if KeyName(a) == KeyName(b) {
      var p := |UnitPrefix|;
      if a.UnitKey? && b.GloreKey? {
        UnitNotGloreName(a.i, b.i);
      } else if a.GloreKey? && b.UnitKey? {
        UnitNotGloreName(b.i, a.i);
      } else if a.UnitKey? {
        assert IntToString(a.i) == KeyName(a)[p..] == KeyName(b)[p..] == IntToString(b.i);
        IntToStringInjective(a.i, b.i);
      } else {
        var q := |GloreSuffix|;
        assert IntToString(a.i) == KeyName(a)[p..|KeyName(a)| - q] == KeyName(b)[p..|KeyName(b)| - q] == IntToString(b.i);
        IntToStringInjective(a.i, b.i);
      }
    }
  }

  lemma UnitNotGloreName(i: int, j: int)
    ensures KeyName(UnitKey(i)) != KeyName(GloreKey(j))
  {
    SeparatorNotInIntToString(i, '_');
    assert GloreSuffix[0] == '_';
    SuffixedDiffers(UnitPrefix, IntToString(i), IntToString(j), GloreSuffix);
  }

  /** `pre + s` differs from `pre + t + suf` when `s` lacks the first character of `suf`. */
  lemma SuffixedDiffers(pre: string, s: string, t: string, suf: string)
    requires |suf| > 0 && suf[0] !in s
    ensures pre + s != pre + t + suf
  {
    if |pre + s| == |pre + t + suf| {
      var k := |pre| + |t|;
      assert (pre + t + suf)[k] == suf[0];
      assert (pre + s)[k] == s[|t|];
    }
  }

  /** Unit `i` of a stage: the first takes the stage's input channel and first stride and is the `first_block`. */
  function StageUnit(i: int, numIn: int, numMid: int, numOut: int, firstStride: int): Cell200
  {
    Unit(if i == 1 then numIn else numOut, numMid, numOut, if i == 1 then firstStride else 1, i == 1)
  }

  /** What iteration `i` of a stage's loop appends. */
  function NamedGroup(i: int, numIn: int, numMid: int, numOut: int, firstStride: int, useGlore: bool, gloreAt: seq<int>, castFp16: bool): seq<Entry>
  {
    [Entry(UnitKey(i), StageUnit(i, numIn, numMid, numOut, firstStride))] +
    (if useGlore && i in gloreAt then [Entry(GloreKey(i), GloreUnit200(numOut, numMid, castFp16))] else [])
  }

  /** The entries for iterations `1..k`. */
  function NamedStage(k: int, numIn: int, numMid: int, numOut: int, firstStride: int, useGlore: bool, gloreAt: seq<int>, castFp16: bool): seq<Entry>
    decreases k
  {
    if k <= 0 then []
    else
      NamedStage(k - 1, numIn, numMid, numOut, firstStride, useGlore, gloreAt, castFp16) +
      NamedGroup(k, numIn, numMid, numOut, firstStride, useGlore, gloreAt, castFp16)
  }

  /** The keys of a stage, in order. */
  function Keys(entries: seq<Entry>): (ks: seq<Key>)
    ensures |ks| == |entries| && forall j | 0 <= j < |entries| :: ks[j] == entries[j].key
  {
    seq(|entries|, j requires 0 <= j < |entries| => entries[j].key)
  }

  /** The names of a stage's `OrderedDict`, in order. */
  function Names(entries: seq<Entry>): (ns: seq<string>)
    ensures |ns| == |entries| && forall j | 0 <= j < |entries| :: ns[j] == KeyName(entries[j].key)
  {
    seq(|entries|, j requires 0 <= j < |entries| => KeyName(entries[j].key))
  }

  /** The loop building `blocks_layer3` / `blocks_layer4`: units of first stride 2, GloRe units at `gloreAt`. */
  method MakeGloreStage(count: int, numIn: int, numMid: int, numOut: int, useGlore: bool, gloreAt: seq<int>, castFp16: bool)
    returns (blocks: seq<Entry>)
    ensures blocks == NamedStage(count, numIn, numMid, numOut, 2, useGlore, gloreAt, castFp16)
  {
    blocks := [];
    var i := 1;
    while i < count + 1
      invariant 1 <= i <= (if count >= 0 then count + 1 else 1)
      invariant blocks == NamedStage(i - 1, numIn, numMid, numOut, 2, useGlore, gloreAt, castFp16)
    {
      blocks := blocks + [Entry(UnitKey(i), Unit(if i == 1 then numIn else numOut, numMid, numOut, if i == 1 then 2 else 1, i == 1))];
      if useGlore && i in gloreAt {
        blocks := blocks + [Entry(GloreKey(i), GloreUnit200(numOut, numMid, castFp16))];
      }
      i := i + 1;
    }
  }

  /** `num_in`, `num_mid` and `num_out` of stages 2 to 5. */
  const NumIn: seq<int> := [64, 256, 512, 1024]
  const NumMid: seq<int> := [64, 128, 256, 512]
  const NumOut: seq<int> := [256, 512, 1024, 2048]

  /** GloRe positions of the third and fourth stages. */
  const ResNet101Glore3: seq<int> := [1, 3]
  const ResNet101Glore4: seq<int> := [3, 11, 19]
  const ResNet200Glore3: seq<int> := [12, 18]
  const ResNet200Glore4: seq<int> := [16, 24, 32]

  /** Stages 2 to 5 of a ResNet_101 or ResNet_200. */
  datatype Stages = Stages(layer2: seq<Entry>, layer3: seq<Entry>, layer4: seq<Entry>, layer5: seq<Entry>)

  /**
   * The stage construction of `ResNet_101.__init__` and `ResNet_200.__init__`,
   * which differ only in the glore positions: the second stage keeps stride
   * 1 in its first unit, the others stride 2; only stages three and four
   * carry GloRe units. A layer-count list shorter than 4 raises IndexError.
   */
  method ResNetStages(layerNums: seq<int>, useGlore: bool, castFp16: bool, glore3: seq<int>, glore4: seq<int>)
    returns (r: Result<Stages>)
    ensures r.Err? <==> |layerNums| < 4
    ensures r.Err? ==> r.error == IndexError
    ensures r.Ok? ==> r.value.layer2 == NamedStage(layerNums[0], NumIn[0], NumMid[0], NumOut[0], 1, false, [], castFp16)
    ensures r.Ok? ==> r.value.layer3 == NamedStage(layerNums[1], NumIn[1], NumMid[1], NumOut[1], 2, useGlore, glore3, castFp16)
    ensures r.Ok? ==> r.value.layer4 == NamedStage(layerNums[2], NumIn[2], NumMid[2], NumOut[2], 2, useGlore, glore4, castFp16)
    ensures r.Ok? ==> r.value.layer5 == NamedStage(layerNums[3], NumIn[3], NumMid[3], NumOut[3], 2, false, [], castFp16)
  {
    if |layerNums| < 4 {
      return Err(IndexError);
    }
    var layer2 := NamedStage(layerNums[0], NumIn[0], NumMid[0], NumOut[0], 1, false, [], castFp16);
    var layer3 := MakeGloreStage(layerNums[1], NumIn[1], NumMid[1], NumOut[1], useGlore, glore3, castFp16);
    var layer4 := MakeGloreStage(layerNums[2], NumIn[2], NumMid[2], NumOut[2], useGlore, glore4, castFp16);
    var layer5 := NamedStage(layerNums[3], NumIn[3], NumMid[3], NumOut[3], 2, false, [], castFp16);
    r := Ok(Stages(layer2, layer3, layer4, layer5));
  }

  /** The keys iteration `k` adds. */
  lemma KeysStep(k: int, numIn: int, numMid: int, numOut: int, firstStride: int, useGlore: bool, gloreAt: seq<int>, castFp16: bool)
    requires k > 0
    ensures Keys(NamedStage(k, numIn, numMid, numOut, firstStride, useGlore, gloreAt, castFp16)) ==
      Keys(NamedStage(k - 1, numIn, numMid, numOut, firstStride, useGlore, gloreAt, castFp16)) + [UnitKey(k)] +
      (if useGlore && k in gloreAt then [GloreKey(k)] else [])
  {
  }

  /** Every key of iterations `1..k` names a unit in `1..k`. */
  lemma {:induction false} KeysInRange(k: int, numIn: int, numMid: int, numOut: int, firstStride: int, useGlore: bool, gloreAt: seq<int>, castFp16: bool)
    ensures forall key | key in Keys(NamedStage(k, numIn, numMid, numOut, firstStride, useGlore, gloreAt, castFp16)) :: 1 <= key.i <= k
  {
    if k > 0 {
      KeysInRange(k - 1, numIn, numMid, numOut, firstStride, useGlore, gloreAt, castFp16);
      KeysStep(k, numIn, numMid, numOut, firstStride, useGlore, gloreAt, castFp16);
    }
  }

  predicate NoDuplicates<T(==)>(xs: seq<T>)
  {
    forall x, y | 0 <= x < y < |xs| :: xs[x] != xs[y]
  }

  /**
   * The entries of a stage have pairwise distinct keys and therefore
   * pairwise distinct names, so the `OrderedDict` keeps every unit and
   * GloRe unit the loop appended.
   */
  lemma {:induction false} NamedStageDistinct(k: int, numIn: int, numMid: int, numOut: int, firstStride: int, useGlore: bool, gloreAt: seq<int>, castFp16: bool)
    ensures NoDuplicates(Keys(NamedStage(k, numIn, numMid, numOut, firstStride, useGlore, gloreAt, castFp16)))
    ensures NoDuplicates(Names(NamedStage(k, numIn, numMid, numOut, firstStride, useGlore, gloreAt, castFp16)))
  {
    var s := NamedStage(k, numIn, numMid, numOut, firstStride, useGlore, gloreAt, castFp16);
    if k > 0 {
      var before := Keys(NamedStage(k - 1, numIn, numMid, numOut, firstStride, useGlore, gloreAt, castFp16));
      NamedStageDistinct(k - 1, numIn, numMid, numOut, firstStride, useGlore, gloreAt, castFp16);
      KeysInRange(k - 1, numIn, numMid, numOut, firstStride, useGlore, gloreAt, castFp16);
      KeysStep(k, numIn, numMid, numOut, firstStride, useGlore, gloreAt, castFp16);
      var ks := Keys(s);
      forall x, y | 0 <= x < y < |ks| ensures ks[x] != ks[y] {
        if y >= |before| && x < |before| {
          assert ks[x] in before;
        }
      }
    }
    forall x, y | 0 <= x < y < |s| ensures Names(s)[x] != Names(s)[y] {
      KeyNameInjective(s[x].key, s[y].key);
      assert Keys(s)[x] != Keys(s)[y];
    }
  }

  /** A GloRe unit follows unit `i` exactly when `i` is one of the stage's glore positions. */
  lemma {:induction false} GloreKeyPresent(k: int, i: int, numIn: int, numMid: int, numOut: int, firstStride: int, useGlore: bool, gloreAt: seq<int>, castFp16: bool)
    ensures GloreKey(i) in Keys(NamedStage(k, numIn, numMid, numOut, firstStride, useGlore, gloreAt, castFp16)) <==>
      useGlore && i in gloreAt && 1 <= i <= k
  {
    if k > 0 {
      GloreKeyPresent(k - 1, i, numIn, numMid, numOut, firstStride, useGlore, gloreAt, castFp16);
      KeysStep(k, numIn, numMid, numOut, firstStride, useGlore, gloreAt, castFp16);
    }
  }

  /**
   * Each unit of a stage is the `first_block` (with the projection
   * shortcut, the stage's input channel and first stride) exactly when it is
   * unit 1; every other unit maps `num_out` to `num_out` with stride 1. Each
   * GloRe unit is `GloreUnit_200(num_out, num_mid)` and follows the unit it
   * is named after.
   */
  lemma {:induction false} NamedStageCell(k: int, j: int, numIn: int, numMid: int, numOut: int, firstStride: int, useGlore: bool, gloreAt: seq<int>, castFp16: bool)
    requires 0 <= j < |NamedStage(k, numIn, numMid, numOut, firstStride, useGlore, gloreAt, castFp16)|
    ensures var e := NamedStage(k, numIn, numMid, numOut, firstStride, useGlore, gloreAt, castFp16)[j];
      e.cell.Unit? <==> e.key.UnitKey?
    ensures var e := NamedStage(k, numIn, numMid, numOut, firstStride, useGlore, gloreAt, castFp16)[j];
      e.cell.Unit? ==>
        (e.cell.firstBlock <==> e.key == UnitKey(1)) &&
        e.cell.inChannel == (if e.cell.firstBlock then numIn else numOut) &&
        e.cell.stride == (if e.cell.firstBlock then firstStride else 1) &&
        e.cell.midChannel == numMid && e.cell.outChannel == numOut
    ensures var s := NamedStage(k, numIn, numMid, numOut, firstStride, useGlore, gloreAt, castFp16);
      s[j].cell.Glore200? ==>
        s[j].cell == GloreUnit200(numOut, numMid, castFp16) && j > 0 && s[j - 1].key == UnitKey(s[j].key.i)
  {
    var before := NamedStage(k - 1, numIn, numMid, numOut, firstStride, useGlore, gloreAt, castFp16);
    if j < |before| {
      NamedStageCell(k - 1, j, numIn, numMid, numOut, firstStride, useGlore, gloreAt, castFp16);
    }
  }

  /** The stage length: layer count plus the glore positions within it. */
  lemma {:induction false} NamedStageLength(k: int, numIn: int, numMid: int, numOut: int, firstStride: int, useGlore: bool, gloreAt: seq<int>, castFp16: bool)
    ensures |NamedStage(k, numIn, numMid, numOut, firstStride, useGlore, gloreAt, castFp16)| ==
      (if k > 0 then k else 0) + (if useGlore then |PositionsIn(k, gloreAt)| else 0)
  {
    if k <= 0 {
      assert PositionsIn(k, gloreAt) == {};
    } else {
      NamedStageLength(k - 1, numIn, numMid, numOut, firstStride, useGlore, gloreAt, castFp16);
      PositionsStep(k, gloreAt);
    }
  }

  /** The number of distinct values in a list without repeats is its length. */
  lemma {:induction false} DistinctCount(xs: seq<int>)
    requires forall a, b | 0 <= a < b < |xs| :: xs[a] != xs[b]
    ensures |set p | p in xs| == |xs|
  {
    if |xs| > 0 {
      var init := xs[..|xs| - 1];
      DistinctCount(init);
      assert (set p | p in xs) == (set p | p in init) + {xs[|xs| - 1]};
      assert xs[|xs| - 1] !in init;
    }
  }

  /** The facts the factories' stages three and four are checked for, for increasing positions all within the stage. */
  lemma GloreStagePlan(k: int, numIn: int, numMid: int, numOut: int, useGlore: bool, gloreAt: seq<int>, castFp16: bool)
    requires k >= 0
    requires forall p | p in gloreAt :: 1 <= p <= k
    requires forall a, b | 0 <= a < b < |gloreAt| :: gloreAt[a] < gloreAt[b]
    ensures var s := NamedStage(k, numIn, numMid, numOut, 2, useGlore, gloreAt, castFp16);
      |s| == k + (if useGlore then |gloreAt| else 0)
    ensures var s := NamedStage(k, numIn, numMid, numOut, 2, useGlore, gloreAt, castFp16);
      forall i :: GloreKey(i) in Keys(s) <==> useGlore && i in gloreAt
  {
    NamedStageLength(k, numIn, numMid, numOut, 2, useGlore, gloreAt, castFp16);
    assert PositionsIn(k, gloreAt) == set p | p in gloreAt;
    DistinctCount(gloreAt);
    forall i ensures GloreKey(i) in Keys(NamedStage(k, numIn, numMid, numOut, 2, useGlore, gloreAt, castFp16)) <==> useGlore && i in gloreAt {
      GloreKeyPresent(k, i, numIn, numMid, numOut, 2, useGlore, gloreAt, castFp16);
    }
  }

  /** `glore_resnet101`: stages of 3, 4, 23 and 3 units. */
  method GloreResnet101(castFp16: bool, useGlore: bool) returns (r: Result<Stages>)
    ensures r == Ok(Stages(NamedStage(3, 64, 64, 256, 1, false, [], castFp16),
                           NamedStage(4, 256, 128, 512, 2, useGlore, ResNet101Glore3, castFp16),
                           NamedStage(23, 512, 256, 1024, 2, useGlore, ResNet101Glore4, castFp16),
                           NamedStage(3, 1024, 512, 2048, 2, false, [], castFp16)))
  {
    r := ResNetStages([3, 4, 23, 3], useGlore, castFp16, ResNet101Glore3, ResNet101Glore4);
  }

  /** In `glore_resnet101` with glore, GloRe units follow units 1 and 3 of stage three. */
  lemma ResNet101Stage3(castFp16: bool, useGlore: bool)
    ensures var s := NamedStage(4, 256, 128, 512, 2, useGlore, ResNet101Glore3, castFp16);
      |s| == (if useGlore then 6 else 4) &&
      forall i :: GloreKey(i) in Keys(s) <==> useGlore && i in ResNet101Glore3
  {
    GloreStagePlan(4, 256, 128, 512, useGlore, ResNet101Glore3, castFp16);
  }

  /** In `glore_resnet101` with glore, GloRe units follow units 3, 11 and 19 of stage four. */
  lemma ResNet101Stage4(castFp16: bool, useGlore: bool)
    ensures var s := NamedStage(23, 512, 256, 1024, 2, useGlore, ResNet101Glore4, castFp16);
      |s| == (if useGlore then 26 else 23) &&
      forall i :: GloreKey(i) in Keys(s) <==> useGlore && i in ResNet101Glore4
  {
    GloreStagePlan(23, 512, 256, 1024, useGlore, ResNet101Glore4, castFp16);
  }

  /** `glore_resnet200`: stages of 3, 24, 36 and 3 units. */
  method GloreResnet200(castFp16: bool, useGlore: bool) returns (r: Result<Stages>)
    ensures r == Ok(Stages(NamedStage(3, 64, 64, 256, 1, false, [], castFp16),
                           NamedStage(24, 256, 128, 512, 2, useGlore, ResNet200Glore3, castFp16),
                           NamedStage(36, 512, 256, 1024, 2, useGlore, ResNet200Glore4, castFp16),
                           NamedStage(3, 1024, 512, 2048, 2, false, [], castFp16)))
  {
    r := ResNetStages([3, 24, 36, 3], useGlore, castFp16, ResNet200Glore3, ResNet200Glore4);
  }

  /** In `glore_resnet200` with glore, GloRe units follow units 12 and 18 of stage three. */
  lemma ResNet200Stage3(castFp16: bool, useGlore: bool)
    ensures var s := NamedStage(24, 256, 128, 512, 2, useGlore, ResNet200Glore3, castFp16);
      |s| == (if useGlore then 26 else 24) &&
      forall i :: GloreKey(i) in Keys(s) <==> useGlore && i in ResNet200Glore3
  {
    GloreStagePlan(24, 256, 128, 512, useGlore, ResNet200Glore3, castFp16);
  }

  /** In `glore_resnet200` with glore, GloRe units follow units 16, 24 and 32 of stage four. */
  lemma ResNet200Stage4(castFp16: bool, useGlore: bool)
    ensures var s := NamedStage(36, 512, 256, 1024, 2, useGlore, ResNet200Glore4, castFp16);
      |s| == (if useGlore then 39 else 36) &&
      forall i :: GloreKey(i) in Keys(s) <==> useGlore && i in ResNet200Glore4
  {
    GloreStagePlan(36, 512, 256, 1024, useGlore, ResNet200Glore4, castFp16);
  }
}
